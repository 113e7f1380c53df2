/**
 * The decisions MainActivity makes, as functions of its inputs: the per-person
 * amount (`calcularValor`), the change-detected save (`saveValues`), the seeding
 * of the input fields from the store at startup, and the text-to-speech readiness
 * test (`onInit`).
 */
module Split {
  import opened Wrappers
  import opened KotlinInt
  import opened DataStore

  /**
   * The platform conversions the controller calls but that are not modelled here:
   * `String.toDoubleOrNull()`, `String.toFloatOrNull()` and `Float.toString()`.
   * The two parsers are kept separate; nothing assumes they agree.
   */
  datatype Platform = Platform(
    toDoubleOrNull: string -> Option<real>,
    toFloatOrNull: string -> Option<real>,
    floatToString: real -> string)

  /** `"".toFloatOrNull()` is null: the empty text is not a `Float`. */
  ghost predicate EmptyIsNotFloat(p: Platform)
  {
    p.toFloatOrNull("") == None
  }

  /** A positive value `x` reads back from its own rendering `x.toString()`. */
  ghost predicate ReadsBack(p: Platform, x: real)
  {
    x > 0.0 ==> p.toFloatOrNull(p.floatToString(x)) == Some(x)
  }

  /** What the result view shows. */
  datatype Display =
    | LayoutText          // whatever the layout put there; never set yet
    | ZeroLiteral         // the fixed text "R$ 0,00"
    | Formatted(amount: real)  // `String.format("R$ %.2f", amount)`

  /** The outcome of `calcularValor`: the per-person amount and the result text. */
  datatype Calc = Calc(valorPorPessoa: real, display: Display)

  /** The total read by `calcularValor`: `toDoubleOrNull() ?: 0.0`. */
  function TotalOrZero(p: Platform, text: string): (r: real)
    ensures p.toDoubleOrNull(text).Some? ==> r == p.toDoubleOrNull(text).value
    ensures p.toDoubleOrNull(text).None? ==> r == 0.0
  {
    p.toDoubleOrNull(text).GetOr(0.0)
  }

  /** The person count read by both `calcularValor` and `saveValues`: `toIntOrNull() ?: 0`. */
  function CountOrZero(text: string): (r: Int32)
    ensures WellFormedInt(text) && INT_MIN <= SignedValue(text) <= INT_MAX ==> r == SignedValue(text)
    ensures ParseInt(text).None? ==> r == 0
    ensures |text| == 0 ==> r == 0
  {
    ParseInt(text).GetOr(0)
  }

  /** `calcularValor` on the current texts of the two input fields. */
  function Calcular(p: Platform, contaText: string, pessoasText: string): (r: Calc)
    // an empty field gives 0 and the fixed zero text, whatever the parsers do
    ensures |contaText| == 0 || |pessoasText| == 0 ==> r == Calc(0.0, ZeroLiteral)
    ensures |contaText| > 0 && |pessoasText| > 0 ==> r.display == Formatted(r.valorPorPessoa)
    // unparseable text counts as 0
    ensures p.toDoubleOrNull(contaText) == None ==> r.valorPorPessoa == 0.0
    ensures ParseInt(pessoasText) == None ==> r.valorPorPessoa == 0.0
    // no division unless the count is positive
    ensures CountOrZero(pessoasText) <= 0 ==> r.valorPorPessoa == 0.0
    // with a positive count, the shares add up to the total
    ensures |contaText| > 0 && CountOrZero(pessoasText) > 0 ==>
      r.valorPorPessoa * (CountOrZero(pessoasText) as real) == TotalOrZero(p, contaText)
  {
    if |contaText| == 0 || |pessoasText| == 0 then Calc(0.0, ZeroLiteral)
    else
      var valorTotal := TotalOrZero(p, contaText);
      var numPessoas := CountOrZero(pessoasText);
      var valor := if numPessoas > 0 then valorTotal / (numPessoas as real) else 0.0;
      Calc(valor, Formatted(valor))
  }

  /** 100 split among 4 is 25 each. */
  lemma ScenarioEvenSplit(p: Platform)
    requires p.toDoubleOrNull("100") == Some(100.0)
    ensures Calcular(p, "100", "4") == Calc(25.0, Formatted(25.0))
  {
  }

  /** An empty total gives the fixed zero text. */
  lemma ScenarioEmptyTotal(p: Platform)
    ensures Calcular(p, "", "3") == Calc(0.0, ZeroLiteral)
  {
  }

  /** Zero people gives 0, shown through the formatted text rather than the fixed one. */
  lemma ScenarioZeroPeople(p: Platform)
    requires p.toDoubleOrNull("50.5") == Some(50.5)
    ensures Calcular(p, "50.5", "0") == Calc(0.0, Formatted(0.0))
  {
  }

  /** The in-memory record of what was last saved: `(lastSavedConta, lastSavedPessoas)`. */
  datatype Snapshot = Snapshot(conta: real, pessoas: Int32)

  /** The pair `saveValues` would save: each field parsed, 0 where unparseable. */
  function Candidate(p: Platform, contaText: string, pessoasText: string): (r: Snapshot)
    ensures p.toFloatOrNull(contaText).Some? ==> r.conta == p.toFloatOrNull(contaText).value
    ensures p.toFloatOrNull(contaText).None? ==> r.conta == 0.0
    ensures ParseInt(pessoasText).Some? ==> r.pessoas == ParseInt(pessoasText).value
    ensures ParseInt(pessoasText).None? ==> r.pessoas == 0
  {
    Snapshot(p.toFloatOrNull(contaText).GetOr(0.0), CountOrZero(pessoasText))
  }

  /** The pair the store currently holds. */
  function Stored(prefs: Prefs): Snapshot
    requires WellTyped(prefs)
  {
    Snapshot(ContaOf(prefs), PessoasOf(prefs))
  }

  /** The persistence side of the controller: the snapshot, the store, and the edits issued. */
  datatype Persisted = Persisted(last: Snapshot, prefs: Prefs, edits: seq<Edit>)

  /** The snapshot agrees with the store and the store is what its edits made it. */
  ghost predicate Consistent(st: Persisted, initial: Prefs)
  {
    && WellTyped(initial)
    && st.prefs == ApplyEdits(initial, st.edits)
    && Stored(st.prefs) == st.last
  }

  /** `saveValues` on the current texts of the two input fields. */
  function SaveValues(p: Platform, contaText: string, pessoasText: string, st: Persisted): (r: Persisted)
    requires WellTyped(st.prefs)
    ensures WellTyped(r.prefs)
    // afterwards the snapshot is the candidate pair, whether or not anything was written
    ensures r.last == Candidate(p, contaText, pessoasText)
    // nothing is written when the candidate equals the snapshot ...
    ensures Candidate(p, contaText, pessoasText) == st.last ==> r == st
    // ... and otherwise both slots are written, account first, and the store then holds the snapshot
    ensures Candidate(p, contaText, pessoasText) != st.last ==>
      && r.edits == st.edits + [EditConta(r.last.conta), EditPessoas(r.last.pessoas)]
      && r.prefs == ApplyEdits(st.prefs, [EditConta(r.last.conta), EditPessoas(r.last.pessoas)])
      && Stored(r.prefs) == r.last
    ensures |r.edits| == |st.edits| <==> Candidate(p, contaText, pessoasText) == st.last
  {
    var valorTotal := p.toFloatOrNull(contaText).GetOr(0.0);
    var numPessoas := CountOrZero(pessoasText);
    if valorTotal != st.last.conta || numPessoas != st.last.pessoas then
      SaveBothIsPutBoth(st.prefs, valorTotal, numPessoas);
      Persisted(Snapshot(valorTotal, numPessoas),
                PutPessoas(PutConta(st.prefs, valorTotal), numPessoas),
                st.edits + [EditConta(valorTotal), EditPessoas(numPessoas)])
    else st
  }

  /** `saveValues` keeps the snapshot and the store in agreement. */
  lemma SaveValuesKeepsConsistent(p: Platform, contaText: string, pessoasText: string,
                                  st: Persisted, initial: Prefs)
    requires Consistent(st, initial)
    ensures Consistent(SaveValues(p, contaText, pessoasText, st), initial)
  {
    var cand := Candidate(p, contaText, pessoasText);
    if cand != st.last {
      var e1, e2 := EditConta(cand.conta), EditPessoas(cand.pessoas);
      ApplyEditsSnoc(initial, st.edits, e1);
      ApplyEditsSnoc(initial, st.edits + [e1], e2);
      assert st.edits + [e1] + [e2] == st.edits + [e1, e2];
    }
  }

  /** A second change event on the same texts writes nothing. */
  lemma SaveValuesIdempotent(p: Platform, contaText: string, pessoasText: string, st: Persisted)
    requires WellTyped(st.prefs)
    ensures var once := SaveValues(p, contaText, pessoasText, st);
      SaveValues(p, contaText, pessoasText, once) == once
  {
  }

  /**
   * Clearing a field persists 0 for it: once the snapshot agrees with the store,
   * a save with that field empty leaves 0 stored in its slot.
   */
  lemma ClearingContaPersistsZero(p: Platform, pessoasText: string, st: Persisted)
    requires EmptyIsNotFloat(p) && WellTyped(st.prefs) && Stored(st.prefs) == st.last
    ensures ContaOf(SaveValues(p, "", pessoasText, st).prefs) == 0.0
  {
  }

  /** The same for the person-count field; `toIntOrNull` of the empty text is null by definition. */
  lemma ClearingPessoasPersistsZero(p: Platform, contaText: string, st: Persisted)
    requires WellTyped(st.prefs) && Stored(st.prefs) == st.last
    ensures PessoasOf(SaveValues(p, contaText, "", st).prefs) == 0
  {
  }

  /** The controller's fields that seeding touches: the two input texts and the snapshot. */
  datatype Session = Session(contaText: string, pessoasText: string, last: Snapshot)

  /** The state at startup: empty fields and the snapshot at its initial `(0f, 0)`. */
  function Fresh(): Session
  {
    Session("", "", Snapshot(0.0, 0))
  }

  /** The startup coroutine: each stored value is copied into its field and the snapshot only when positive. */
  function Seeded(p: Platform, savedConta: real, savedPessoas: Int32, s: Session): (r: Session)
    ensures savedConta > 0.0 ==> r.contaText == p.floatToString(savedConta) && r.last.conta == savedConta
    ensures savedConta <= 0.0 ==> r.contaText == s.contaText && r.last.conta == s.last.conta
    ensures savedPessoas > 0 ==> ParseInt(r.pessoasText) == Some(savedPessoas) && r.last.pessoas == savedPessoas
    ensures savedPessoas <= 0 ==> r.pessoasText == s.pessoasText && r.last.pessoas == s.last.pessoas
  {
    var s1 := if savedConta > 0.0
      then s.(contaText := p.floatToString(savedConta), last := s.last.(conta := savedConta))
      else s;
    ParseIntToString(savedPessoas);
    if savedPessoas > 0
      then s1.(pessoasText := IntToString(savedPessoas), last := s1.last.(pessoas := savedPessoas))
      else s1
  }

  /**
   * Seeding causes no spurious write: right after startup the candidate pair read
   * back from the seeded fields equals the seeded snapshot, whatever the store held.
   */
  lemma SeedThenEventSavesNothing(p: Platform, prefs: Prefs)
    requires WellTyped(prefs) && EmptyIsNotFloat(p) && ReadsBack(p, ContaOf(prefs))
    ensures var s := Seeded(p, ContaOf(prefs), PessoasOf(prefs), Fresh());
      Candidate(p, s.contaText, s.pessoasText) == s.last
  {
  }

  /** After seeding, the snapshot agrees with the store exactly when neither stored value is negative. */
  lemma SeedSyncsIffNonNegative(p: Platform, prefs: Prefs)
    requires WellTyped(prefs)
    ensures Seeded(p, ContaOf(prefs), PessoasOf(prefs), Fresh()).last == Stored(prefs)
        <==> ContaOf(prefs) >= 0.0 && PessoasOf(prefs) >= 0
  {
  }

  /** On first run nothing is stored, so seeding changes nothing. */
  lemma FirstRunSeedsNothing(p: Platform)
    ensures Seeded(p, ContaOf(map[]), PessoasOf(map[]), Fresh()) == Fresh()
  {
  }

  // TextToSpeech result codes.
  const SUCCESS: int := 0
  const LANG_COUNTRY_VAR_AVAILABLE: int := 2
  const LANG_COUNTRY_AVAILABLE: int := 1
  const LANG_AVAILABLE: int := 0
  const LANG_MISSING_DATA: int := -1
  const LANG_NOT_SUPPORTED: int := -2

  /** The codes `setLanguage` is documented to return. */
  predicate DocumentedLanguageCode(c: int)
  {
    LANG_NOT_SUPPORTED <= c <= LANG_COUNTRY_VAR_AVAILABLE
  }

  /**
   * `onInit`'s readiness decision; `language` is what `tts?.setLanguage(...)`
   * returned, `None` when there is no engine.
   */
  function TtsReady(status: int, language: Option<int>): (ready: bool)
    ensures ready ==> status == SUCCESS
    ensures status == SUCCESS && language.None? ==> ready
    ensures language.Some? && DocumentedLanguageCode(language.value) ==>
      (ready <==> status == SUCCESS && language.value >= LANG_AVAILABLE)
  {
    if status == SUCCESS then
      language != Some(LANG_MISSING_DATA) && language != Some(LANG_NOT_SUPPORTED)
    else false
  }
}
