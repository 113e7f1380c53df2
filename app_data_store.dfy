/**
 * The persistence boundary: a preferences store with two typed slots,
 * the account total (a `Float`) and the number of people (an `Int`),
 * each read with default 0 when it was never written.
 */
module DataStore {
  import opened KotlinInt

  /** The two preference keys; their names differ, so the slots never alias. */
  const VALOR_CONTA: string := "valor_conta"
  const NUMERO_PESSOAS: string := "numero_pessoas"

  /** A stored preference value, tagged with the type of its key. */
  datatype Pref = FloatPref(f: real) | IntPref(i: Int32)

  /** The durable contents: preference name to value. */
  type Prefs = map<string, Pref>

  /** One `edit` call on the store, in the order the store receives them. */
  datatype Edit = EditConta(conta: real) | EditPessoas(pessoas: Int32)

  /** Each key holds a value of its own type (typed keys guarantee this). */
  predicate WellTyped(p: Prefs)
  {
    && (VALOR_CONTA in p ==> p[VALOR_CONTA].FloatPref?)
    && (NUMERO_PESSOAS in p ==> p[NUMERO_PESSOAS].IntPref?)
  }

  /** `contaValue`: `preferences[VALOR_CONTA] ?: 0f`. */
  function ContaOf(p: Prefs): (v: real)
    requires WellTyped(p)
    ensures VALOR_CONTA in p ==> p[VALOR_CONTA] == FloatPref(v)
    ensures VALOR_CONTA !in p ==> v == 0.0
  {
    if VALOR_CONTA in p then p[VALOR_CONTA].f else 0.0
  }

  /** `pessoasValue`: `preferences[NUMERO_PESSOAS] ?: 0`. */
  function PessoasOf(p: Prefs): (v: Int32)
    requires WellTyped(p)
    ensures NUMERO_PESSOAS in p ==> p[NUMERO_PESSOAS] == IntPref(v)
    ensures NUMERO_PESSOAS !in p ==> v == 0
  {
    if NUMERO_PESSOAS in p then p[NUMERO_PESSOAS].i else 0
  }

  /** The edit of `saveContaValue(v)`: overwrite the account slot. */
  function PutConta(p: Prefs, v: real): (q: Prefs)
    requires WellTyped(p)
    ensures WellTyped(q)
    ensures ContaOf(q) == v
    ensures PessoasOf(q) == PessoasOf(p)
    ensures forall k :: k in p && k != VALOR_CONTA ==> k in q && q[k] == p[k]
    ensures q.Keys == p.Keys + {VALOR_CONTA}
  {
    p[VALOR_CONTA := FloatPref(v)]
  }

  /** The edit of `savePessoasValue(v)`: overwrite the person-count slot. */
  function PutPessoas(p: Prefs, v: Int32): (q: Prefs)
    requires WellTyped(p)
    ensures WellTyped(q)
    ensures PessoasOf(q) == v
    ensures ContaOf(q) == ContaOf(p)
    ensures forall k :: k in p && k != NUMERO_PESSOAS ==> k in q && q[k] == p[k]
    ensures q.Keys == p.Keys + {NUMERO_PESSOAS}
  {
    p[NUMERO_PESSOAS := IntPref(v)]
  }

  /** What one `edit` call does to the store. */
  function ApplyEdit(p: Prefs, e: Edit): (q: Prefs)
    requires WellTyped(p)
    ensures WellTyped(q)
    ensures e.EditConta? ==> ContaOf(q) == e.conta && PessoasOf(q) == PessoasOf(p)
    ensures e.EditPessoas? ==> PessoasOf(q) == e.pessoas && ContaOf(q) == ContaOf(p)
  {
    match e
    case EditConta(v) => PutConta(p, v)
    case EditPessoas(v) => PutPessoas(p, v)
  }

  /** What the store holds after receiving the given edits in order. */
  function ApplyEdits(p: Prefs, edits: seq<Edit>): (q: Prefs)
    requires WellTyped(p)
    ensures WellTyped(q)
    decreases |edits|
  {
    if |edits| == 0 then p else ApplyEdits(ApplyEdit(p, edits[0]), edits[1..])
  }

  /** The value of the most recent account edit in `edits`, or `d` if there is none. */
  function LastConta(edits: seq<Edit>, d: real): real
  {
    if |edits| == 0 then d
    else if edits[|edits| - 1].EditConta? then edits[|edits| - 1].conta
    else LastConta(edits[..|edits| - 1], d)
  }

  /** The value of the most recent person-count edit in `edits`, or `d` if there is none. */
  function LastPessoas(edits: seq<Edit>, d: Int32): Int32
  {
    if |edits| == 0 then d
    else if edits[|edits| - 1].EditPessoas? then edits[|edits| - 1].pessoas
    else LastPessoas(edits[..|edits| - 1], d)
  }

  /** Receiving one more edit applies it on top of what the earlier ones produced. */
  lemma {:induction false} ApplyEditsSnoc(p: Prefs, edits: seq<Edit>, e: Edit)
    requires WellTyped(p)
    ensures ApplyEdits(p, edits + [e]) == ApplyEdit(ApplyEdits(p, edits), e)
    decreases |edits|
  {
    if |edits| > 0 {
      assert (edits + [e])[1..] == edits[1..] + [e];
      ApplyEditsSnoc(ApplyEdit(p, edits[0]), edits[1..], e);
    }
  }

  /**
   * Last write wins: after any sequence of edits, each slot reads as the value of
   * the most recent edit to it, or as it read before if no edit touched it.
   */
  lemma {:induction false} LastWriteWins(p: Prefs, edits: seq<Edit>)
    requires WellTyped(p)
    ensures ContaOf(ApplyEdits(p, edits)) == LastConta(edits, ContaOf(p))
    ensures PessoasOf(ApplyEdits(p, edits)) == LastPessoas(edits, PessoasOf(p))
    decreases |edits|
  {
    if |edits| > 0 {
      var init := edits[..|edits| - 1];
      var e := edits[|edits| - 1];
      assert edits == init + [e];
      ApplyEditsSnoc(p, init, e);
      LastWriteWins(p, init);
    }
  }

  /** A slot that was never written reads as 0. */
  lemma NeverWrittenReadsZero(p: Prefs)
    requires WellTyped(p)
    ensures VALOR_CONTA !in p ==> ContaOf(p) == 0.0
    ensures NUMERO_PESSOAS !in p ==> PessoasOf(p) == 0
    ensures ContaOf(map[]) == 0.0 && PessoasOf(map[]) == 0
  {
  }

  /** The two slots are stored under different names. */
  lemma KeysDistinct()
    ensures VALOR_CONTA != NUMERO_PESSOAS
  {
  }

  /** A save is an overwrite: saving the same value twice equals saving it once. */
  lemma SaveTwiceIsSaveOnce(p: Prefs, c: real, n: Int32)
    requires WellTyped(p)
    ensures PutConta(PutConta(p, c), c) == PutConta(p, c)
    ensures PutPessoas(PutPessoas(p, n), n) == PutPessoas(p, n)
  {
  }

  /** Receiving an account edit and then a person-count edit is overwriting both slots, in that order. */
  lemma {:induction false} SaveBothIsPutBoth(p: Prefs, c: real, n: Int32)
    requires WellTyped(p)
    ensures ApplyEdits(p, [EditConta(c), EditPessoas(n)]) == PutPessoas(PutConta(p, c), n)
  {
    var q1 := PutConta(p, c);
    assert ApplyEdits(p, [EditConta(c), EditPessoas(n)]) == ApplyEdits(q1, [EditPessoas(n)]);
    assert ApplyEdits(q1, [EditPessoas(n)]) == ApplyEdits(PutPessoas(q1, n), []);
  }

  /**
   * Writing the account slot and then the person-count slot, whatever the store
   * held before, leaves exactly that pair readable in the next session.
   */
  lemma SaveBothReadsBack(p: Prefs, c: real, n: Int32)
    requires WellTyped(p)
    ensures var q := ApplyEdits(p, [EditConta(c), EditPessoas(n)]);
      ContaOf(q) == c && PessoasOf(q) == n
  {
    SaveBothIsPutBoth(p, c, n);
  }

  /**
   * `AppDataStore`: the preferences map that `edit` updates in place, and a ghost
   * log of the `edit` calls it has received (each save is one separate `edit`).
   */
  class AppDataStore {
    var prefs: Prefs
    ghost var initial: Prefs
    ghost var edits: seq<Edit>

    /** The store holds exactly what its edits, in order, made of the initial contents. */
    ghost predicate Valid()
      reads this
    {
      WellTyped(initial) && WellTyped(prefs) && prefs == ApplyEdits(initial, edits)
    }

    /** A store over what earlier sessions left on disk. */
    constructor (initial: Prefs)
      requires WellTyped(initial)
      ensures Valid() && prefs == initial && this.initial == initial && edits == []
    {
      prefs := initial;
      this.initial := initial;
      edits := [];
    }

    method SaveContaValue(value: real)
      requires Valid()
      modifies this
      ensures Valid()
      ensures prefs == PutConta(old(prefs), value)
      ensures edits == old(edits) + [EditConta(value)] && initial == old(initial)
    {
      ApplyEditsSnoc(initial, edits, EditConta(value));
      prefs := prefs[VALOR_CONTA := FloatPref(value)];
      edits := edits + [EditConta(value)];
    }

    method SavePessoasValue(value: Int32)
      requires Valid()
      modifies this
      ensures Valid()
      ensures prefs == PutPessoas(old(prefs), value)
      ensures edits == old(edits) + [EditPessoas(value)] && initial == old(initial)
    {
      ApplyEditsSnoc(initial, edits, EditPessoas(value));
      prefs := prefs[NUMERO_PESSOAS := IntPref(value)];
      edits := edits + [EditPessoas(value)];
    }

    /** The first value of the `contaValue` flow: the current slot, 0 if never written. */
    method GetContaValueOnce() returns (v: real)
      requires Valid()
      ensures v == ContaOf(prefs)
      ensures VALOR_CONTA !in prefs ==> v == 0.0
    {
      v := ContaOf(prefs);
    }

    /** The first value of the `pessoasValue` flow: the current slot, 0 if never written. */
    method GetPessoasValueOnce() returns (v: Int32)
      requires Valid()
      ensures v == PessoasOf(prefs)
      ensures NUMERO_PESSOAS !in prefs ==> v == 0
    {
      v := PessoasOf(prefs);
    }
  }
}
