/**
 * MainActivity as a stateful controller: its fields, the startup seeding in
 * `onCreate`, the re-entrancy-guarded text watcher, `calcularValor`, `saveValues`,
 * the speak guard and `onInit`. Asynchronous work runs to completion in program order.
 */
module Activity {
  import opened Wrappers
  import opened KotlinInt
  import opened DataStore
  import opened Split

  class MainActivity {
    const store: AppDataStore
    const platform: Platform
    /** The texts of the two input fields (`edtConta`, `edtPessoas`). */
    var contaText: string
    var pessoasText: string
    /** What `tvResultado` shows. */
    var display: Display
    var valorPorPessoa: real
    var lastSavedConta: real
    var lastSavedPessoas: Int32
    /** The text watcher's own flag. */
    var selfChange: bool
    var ttsInitialized: bool
    /** Whether the text-to-speech engine was created (`tts != null`). */
    var ttsPresent: bool

    ghost predicate Valid()
      reads this, store
    {
      store.Valid()
    }

    ghost function Persist(): Persisted
      reads this, store
    {
      Persisted(Snapshot(lastSavedConta, lastSavedPessoas), store.prefs, store.edits)
    }

    ghost function CurrentSession(): Session
      reads this
    {
      Session(contaText, pessoasText, Snapshot(lastSavedConta, lastSavedPessoas))
    }

    /**
     * `onCreate`: the fields take their initial values, then the stored values are
     * loaded once and seeded, before any change event is delivered.
     */
    constructor (store: AppDataStore, platform: Platform, ttsCreated: bool)
      requires store.Valid()
      ensures Valid() && this.store == store && this.platform == platform
      ensures unchanged(store)
      ensures CurrentSession() == Seeded(platform, ContaOf(store.prefs), PessoasOf(store.prefs), Fresh())
      ensures display == LayoutText && valorPorPessoa == 0.0
      ensures !selfChange && !ttsInitialized && ttsPresent == ttsCreated
    {
      this.store := store;
      this.platform := platform;
      contaText, pessoasText := "", "";
      display := LayoutText;
      valorPorPessoa := 0.0;
      lastSavedConta, lastSavedPessoas := 0.0, 0;
      selfChange := false;
      ttsInitialized := false;
      ttsPresent := ttsCreated;
      new;
      LoadSaved();
    }

    /** The startup coroutine: read both slots once; copy each positive value into its field and the snapshot. */
    method LoadSaved()
      requires Valid()
      modifies this`contaText, this`pessoasText, this`lastSavedConta, this`lastSavedPessoas
      ensures Valid()
      ensures CurrentSession() == Seeded(platform, ContaOf(store.prefs), PessoasOf(store.prefs), old(CurrentSession()))
    {
      var savedConta := store.GetContaValueOnce();
      var savedPessoas := store.GetPessoasValueOnce();
      if savedConta > 0.0 {
        contaText := platform.floatToString(savedConta);
        lastSavedConta := savedConta;
      }
      if savedPessoas > 0 {
        pessoasText := IntToString(savedPessoas);
        lastSavedPessoas := savedPessoas;
      }
    }

    /** `calcularValor`: recompute the per-person amount and the result text from the fields. */
    method CalcularValor()
      modifies this`valorPorPessoa, this`display
      ensures Calc(valorPorPessoa, display) == Calcular(platform, contaText, pessoasText)
    {
      if |contaText| == 0 || |pessoasText| == 0 {
        valorPorPessoa := 0.0;
        display := ZeroLiteral;
        return;
      }
      var valorTotal := platform.toDoubleOrNull(contaText).GetOr(0.0);
      var numPessoas := ParseInt(pessoasText).GetOr(0);
      valorPorPessoa := if numPessoas > 0 then valorTotal / (numPessoas as real) else 0.0;
      display := Formatted(valorPorPessoa);
    }

    /** `saveValues`: write both slots and update the snapshot only when the parsed pair changed. */
    method SaveValues()
      requires Valid()
      modifies this`lastSavedConta, this`lastSavedPessoas, store
      ensures Valid() && store.initial == old(store.initial)
      ensures Persist() == Split.SaveValues(platform, contaText, pessoasText, old(Persist()))
    {
      var valorTotal := platform.toFloatOrNull(contaText).GetOr(0.0);
      var numPessoas := ParseInt(pessoasText).GetOr(0);
      if valorTotal != lastSavedConta || numPessoas != lastSavedPessoas {
        store.SaveContaValue(valorTotal);
        store.SavePessoasValue(numPessoas);
        lastSavedConta := valorTotal;
        lastSavedPessoas := numPessoas;
      }
    }

    /**
     * The watcher's `afterTextChanged`: ignored while the watcher itself is running;
     * otherwise recompute, then save, once each.
     */
    method AfterTextChanged()
      requires Valid()
      modifies this`valorPorPessoa, this`display, this`lastSavedConta, this`lastSavedPessoas, this`selfChange, store
      ensures Valid() && store.initial == old(store.initial)
      ensures selfChange == old(selfChange)
      ensures old(selfChange) ==> unchanged(this) && unchanged(store)
      ensures !old(selfChange) ==>
        && Calc(valorPorPessoa, display) == Calcular(platform, contaText, pessoasText)
        && Persist() == Split.SaveValues(platform, contaText, pessoasText, old(Persist()))
    {
      if selfChange {
        return;
      }
      selfChange := true;
      CalcularValor();
      SaveValues();
      selfChange := false;
    }

    /** The user changes the total field; the watcher registered on it fires. */
    method EditConta(text: string)
      requires Valid()
      modifies this`contaText, this`valorPorPessoa, this`display, this`lastSavedConta, this`lastSavedPessoas, this`selfChange, store
      ensures Valid() && store.initial == old(store.initial)
      ensures contaText == text && pessoasText == old(pessoasText)
      ensures selfChange == old(selfChange)
      ensures !old(selfChange) ==>
        && Calc(valorPorPessoa, display) == Calcular(platform, text, pessoasText)
        && Persist() == Split.SaveValues(platform, text, pessoasText, old(Persist()))
    {
      contaText := text;
      AfterTextChanged();
    }

    /** The user changes the person-count field; the same watcher fires. */
    method EditPessoas(text: string)
      requires Valid()
      modifies this`pessoasText, this`valorPorPessoa, this`display, this`lastSavedConta, this`lastSavedPessoas, this`selfChange, store
      ensures Valid() && store.initial == old(store.initial)
      ensures pessoasText == text && contaText == old(contaText)
      ensures selfChange == old(selfChange)
      ensures !old(selfChange) ==>
        && Calc(valorPorPessoa, display) == Calcular(platform, contaText, text)
        && Persist() == Split.SaveValues(platform, contaText, text, old(Persist()))
    {
      pessoasText := text;
      AfterTextChanged();
    }

    /** The speak button: the amount handed to `falarValor`, if the engine is ready and present. */
    method OnSpeakClick() returns (spoken: Option<real>)
      ensures spoken.Some? <==> ttsInitialized && ttsPresent
      ensures spoken.Some? ==> spoken.value == valorPorPessoa
    {
      if ttsInitialized && ttsPresent {
        spoken := Some(valorPorPessoa);
      } else {
        spoken := None;
      }
    }

    /** `onInit`: `languageResult` is what the engine's `setLanguage` returns when asked. */
    method OnInit(status: int, languageResult: int)
      modifies this`ttsInitialized
      ensures ttsInitialized == TtsReady(status, if ttsPresent then Some(languageResult) else None)
    {
      if status == SUCCESS {
        var result := if ttsPresent then Some(languageResult) else None;
        ttsInitialized := result != Some(LANG_MISSING_DATA) && result != Some(LANG_NOT_SUPPORTED);
      } else {
        ttsInitialized := false;
      }
    }
  }

  /**
   * A restart: a new session over what the store holds, followed by a change event
   * that leaves both fields as seeded, writes nothing to the store.
   */
  method RestartThenEvent(platform: Platform, saved: Prefs) returns (after: Prefs)
    requires WellTyped(saved) && EmptyIsNotFloat(platform) && ReadsBack(platform, ContaOf(saved))
    ensures after == saved
  {
    var store := new AppDataStore(saved);
    var activity := new MainActivity(store, platform, true);
    SeedThenEventSavesNothing(platform, saved);
    activity.AfterTextChanged();
    assert store.edits == [];
    after := store.prefs;
  }

  /**
   * A session in which the user types both fields, then a fresh session reading the
   * store once: it reads back the pair parsed from the typed texts (0 for an
   * unparseable or empty field), provided the store did not start out holding a
   * negative value (see `SeedSyncsIffNonNegative`).
   */
  method EditThenReload(platform: Platform, saved: Prefs, contaText: string, pessoasText: string)
    returns (conta: real, pessoas: Int32)
    requires WellTyped(saved) && ContaOf(saved) >= 0.0 && PessoasOf(saved) >= 0
    ensures Snapshot(conta, pessoas) == Candidate(platform, contaText, pessoasText)
  {
    var store := new AppDataStore(saved);
    var activity := new MainActivity(store, platform, false);
    SeedSyncsIffNonNegative(platform, saved);
    assert Consistent(activity.Persist(), saved);
    ghost var st0 := activity.Persist();
    activity.EditConta(contaText);
    SaveValuesKeepsConsistent(platform, contaText, activity.pessoasText, st0, saved);
    ghost var st1 := activity.Persist();
    activity.EditPessoas(pessoasText);
    SaveValuesKeepsConsistent(platform, contaText, pessoasText, st1, saved);
    // the next session's startup reads each slot once
    conta := store.GetContaValueOnce();
    pessoas := store.GetPessoasValueOnce();
  }
}
