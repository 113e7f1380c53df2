# Vamos Rachar: the split-and-persist controller

A model of the decision logic of a small Android bill-splitting app. The activity
(`MainActivity`) reads a total and a number of people from two text fields,
computes the amount per person, and persists the last entered pair through a
two-slot preferences store (`AppDataStore`). At startup it seeds the fields
from the store. A text watcher with a re-entrancy flag drives recomputation and
saving. A readiness flag, set when the speech engine initialises, guards the
speak button.

Modules:

- `Wrappers`: `Option`, standing for Kotlin's nullable results and `?:`.
- `KotlinInt`: the 32-bit `Int`, `Int.toString()` and `String.toIntOrNull()`,
  with the proof that parsing the rendering of an `Int` gives it back.
- `DataStore`: the preferences map with keys `"valor_conta"` and
  `"numero_pessoas"`, its reads with default 0, the two save edits, the store
  contents as a fold of the edits received, and the class `AppDataStore`. That
  class keeps a ghost log of the `edit` calls it has received.
- `Split`: the controller's decisions as functions. These are `calcularValor`
  (`Calcular`), `saveValues` (`SaveValues`), the startup seeding (`Seeded`) and
  `onInit`'s readiness test (`TtsReady`).
- `Activity`: the class `MainActivity`. It has the source's fields, and each
  method is specified against the function in `Split` that it implements. Two
  client methods then show whole sessions.

Amounts are `real`. `toDoubleOrNull`, `toFloatOrNull` and `Float.toString()`
are calls into the platform. They are fields of a `Platform` value, and the two
parsers are kept separate. A guarantee that depends on them names what it needs
about the values involved: `EmptyIsNotFloat(p)` says the empty text is not a
`Float`, and `ReadsBack(p, x)` says the positive value `x` reads back from
`x.toString()`. Asynchronous work (the startup coroutine and the
two store writes) runs to completion in program order.

Notes on the code's behaviour:

- The calculation keeps no validity flag. An unparseable total with a positive
  count shows the formatted 0 (`"R$ %.2f"` of 0.0), not the fixed `"R$ 0,00"`.
- `saveValues` writes the two slots in two separate `edit` calls. The log in
  `AppDataStore` records them as two edits, account first.
- The snapshot is updated after both writes.
- Seeding copies a stored value into the snapshot only when it is positive. So
  after a start over a negative stored value, the snapshot and the store
  disagree (`SeedSyncsIffNonNegative`).

## Model

| member | source | states |
|---|---|---|
| KotlinInt.ParseInt | app/src/main/java/com/example/constraintlayout/MainActivity.kt:117 | `toIntOrNull` yields a value exactly when the text is an optional sign followed by digits and the value it denotes fits in an `Int`, and then yields that value; a negative value needs a leading '-' |
| KotlinInt.IntToString | app/src/main/java/com/example/constraintlayout/MainActivity.kt:65 | `savedPessoas.toString()` is a well-formed integer text that denotes `savedPessoas`, with no '+' and no leading zero |
| KotlinInt.ParseIntToString | app/src/main/java/com/example/constraintlayout/MainActivity.kt:65 | the text `savedPessoas.toString()` put into the field parses back to `savedPessoas`, for every `Int` |
| DataStore.PutConta | app/src/main/java/com/example/constraintlayout/AppDataStore.kt:22-26 | after `saveContaValue(v)` the account slot reads `v`, the person-count slot is unchanged, and no other key changes |
| DataStore.PutPessoas | app/src/main/java/com/example/constraintlayout/AppDataStore.kt:28-32 | after `savePessoasValue(v)` the person-count slot reads `v`, the account slot is unchanged, and no other key changes |
| DataStore.ContaOf | app/src/main/java/com/example/constraintlayout/AppDataStore.kt:34-35 | `contaValue` reads the stored account value, or 0 when the key is absent |
| DataStore.PessoasOf | app/src/main/java/com/example/constraintlayout/AppDataStore.kt:37-38 | `pessoasValue` reads the stored person count, or 0 when the key is absent |
| DataStore.ApplyEdit | app/src/main/java/com/example/constraintlayout/AppDataStore.kt:23-24 | one `edit` call sets the slot it names and leaves the other slot's reading unchanged |
| DataStore.NeverWrittenReadsZero | app/src/main/java/com/example/constraintlayout/AppDataStore.kt:34-38 | a slot that was never written reads 0 (`?: 0f`, `?: 0`) |
| DataStore.KeysDistinct | app/src/main/java/com/example/constraintlayout/AppDataStore.kt:18-19 | the two slots use different key names, so they never alias |
| DataStore.SaveTwiceIsSaveOnce | app/src/main/java/com/example/constraintlayout/AppDataStore.kt:22-32 | a save is an overwrite: saving the same value twice leaves the same store as saving it once |
| DataStore.ApplyEditsSnoc | app/src/main/java/com/example/constraintlayout/AppDataStore.kt:22-32 | one more `edit` call applies on top of the store the earlier calls produced |
| DataStore.LastWriteWins | app/src/main/java/com/example/constraintlayout/AppDataStore.kt:22-38 | after any sequence of saves, each slot reads the value of its most recent save, or what it read before if none touched it |
| DataStore.SaveBothIsPutBoth | app/src/main/java/com/example/constraintlayout/AppDataStore.kt:22-32 | receiving the account edit and then the person-count edit is the same as overwriting both slots in that order |
| DataStore.SaveBothReadsBack | app/src/main/java/com/example/constraintlayout/AppDataStore.kt:22-46 | saving an account value and then a person count reads back exactly that pair, whatever the store held before |
| DataStore.AppDataStore.constructor | app/src/main/java/com/example/constraintlayout/AppDataStore.kt:16 | a store opens over the contents earlier sessions left, with no edits received yet |
| DataStore.AppDataStore.SaveContaValue | app/src/main/java/com/example/constraintlayout/AppDataStore.kt:22-26 | overwrites the account slot and records one account edit; the store stays the fold of its edits |
| DataStore.AppDataStore.SavePessoasValue | app/src/main/java/com/example/constraintlayout/AppDataStore.kt:28-32 | overwrites the person-count slot and records one person-count edit; the store stays the fold of its edits |
| DataStore.AppDataStore.GetContaValueOnce | app/src/main/java/com/example/constraintlayout/AppDataStore.kt:40-42 | returns the current account slot, 0 when it was never written |
| DataStore.AppDataStore.GetPessoasValueOnce | app/src/main/java/com/example/constraintlayout/AppDataStore.kt:44-46 | returns the current person-count slot, 0 when it was never written |
| Split.TotalOrZero | app/src/main/java/com/example/constraintlayout/MainActivity.kt:116 | the total is the parsed `Double`, or 0 when the text does not parse |
| Split.CountOrZero | app/src/main/java/com/example/constraintlayout/MainActivity.kt:117 | the count is the value of a well-formed in-range integer text, and 0 for empty or unparseable text |
| Split.Candidate | app/src/main/java/com/example/constraintlayout/MainActivity.kt:129-130 | the pair `saveValues` compares: the parsed `Float` and the parsed `Int`, each 0 when its text does not parse |
| Split.Calcular | app/src/main/java/com/example/constraintlayout/MainActivity.kt:105-126 | an empty field gives 0 and `"R$ 0,00"` whatever the parsers say; an unparseable total or count gives 0; a count of at most 0 gives 0; with a positive count the per-person amount times the count is the total; otherwise the formatted amount is shown |
| Split.ScenarioEvenSplit | app/src/main/java/com/example/constraintlayout/MainActivity.kt:116-120 | "100" among "4" is 25 per person, shown formatted |
| Split.ScenarioEmptyTotal | app/src/main/java/com/example/constraintlayout/MainActivity.kt:110-113 | an empty total with "3" people gives 0 and the fixed zero text |
| Split.ScenarioZeroPeople | app/src/main/java/com/example/constraintlayout/MainActivity.kt:119-120 | "50.5" among "0" gives 0, shown through the formatted text |
| Split.SaveValues | app/src/main/java/com/example/constraintlayout/MainActivity.kt:128-140 | the snapshot ends at the parsed pair (0 for unparseable fields); when that pair equals the snapshot nothing changes; otherwise exactly the two edits are issued, account first, the store becomes the result of applying them and nothing else, and it then holds the snapshot; edits are issued exactly when the pair differs |
| Split.SaveValuesKeepsConsistent | app/src/main/java/com/example/constraintlayout/MainActivity.kt:132-138 | if the snapshot agrees with the store and the store is the fold of its edits before a save, both still hold after it |
| Split.SaveValuesIdempotent | app/src/main/java/com/example/constraintlayout/MainActivity.kt:132 | a second save on the same texts changes nothing |
| Split.ClearingContaPersistsZero | app/src/main/java/com/example/constraintlayout/MainActivity.kt:129-138 | with snapshot and store in agreement, saving with the total field cleared leaves 0 in the account slot, given that the empty text is not a `Float` |
| Split.ClearingPessoasPersistsZero | app/src/main/java/com/example/constraintlayout/MainActivity.kt:130-138 | with snapshot and store in agreement, saving with the person-count field cleared leaves 0 in that slot, with no assumption about the platform |
| Split.Seeded | app/src/main/java/com/example/constraintlayout/MainActivity.kt:55-71 | a stored value is copied into its field and the snapshot only when it is positive; the seeded count text parses back to the stored count; a non-positive value leaves field and snapshot as they were |
| Split.SeedThenEventSavesNothing | app/src/main/java/com/example/constraintlayout/MainActivity.kt:55-67 | right after startup the pair parsed from the seeded fields equals the seeded snapshot, so a change event that keeps the texts writes nothing; it needs only that the empty text is not a `Float` and that the stored account value reads back from its rendering |
| Split.SeedSyncsIffNonNegative | app/src/main/java/com/example/constraintlayout/MainActivity.kt:60-67 | after startup the snapshot equals the stored pair if and only if neither stored value is negative |
| Split.FirstRunSeedsNothing | app/src/main/java/com/example/constraintlayout/MainActivity.kt:57-67 | with nothing stored, seeding leaves empty fields and the snapshot at (0, 0) |
| Split.TtsReady | app/src/main/java/com/example/constraintlayout/MainActivity.kt:164-179 | ready only when the status is SUCCESS; with no engine (a null language result) SUCCESS alone is enough; for the documented language codes, ready exactly when the language is available (code at least LANG_AVAILABLE) |
| Activity.MainActivity.constructor | app/src/main/java/com/example/constraintlayout/MainActivity.kt:24-71 | fields start at 0/false/empty, then the stored values are seeded as `Seeded` says; the store is not touched |
| Activity.MainActivity.LoadSaved | app/src/main/java/com/example/constraintlayout/MainActivity.kt:55-71 | reads both slots once and updates the fields and snapshot as `Seeded` says |
| Activity.MainActivity.CalcularValor | app/src/main/java/com/example/constraintlayout/MainActivity.kt:105-126 | sets `valorPorPessoa` and the result text to what `Calcular` gives on the current fields |
| Activity.MainActivity.SaveValues | app/src/main/java/com/example/constraintlayout/MainActivity.kt:128-140 | snapshot, store and edit log become what `Split.SaveValues` gives on the current fields |
| Activity.MainActivity.AfterTextChanged | app/src/main/java/com/example/constraintlayout/MainActivity.kt:80-86 | does nothing while `selfChange` is set; otherwise recomputes and then saves, once each; `selfChange` ends as it began |
| Activity.MainActivity.EditConta | app/src/main/java/com/example/constraintlayout/MainActivity.kt:89 | a change of the total field runs the watcher on the new text |
| Activity.MainActivity.EditPessoas | app/src/main/java/com/example/constraintlayout/MainActivity.kt:90 | a change of the person-count field runs the watcher on the new text |
| Activity.MainActivity.OnSpeakClick | app/src/main/java/com/example/constraintlayout/MainActivity.kt:93-97 | speaks, with the current per-person amount, exactly when the engine is initialised and present |
| Activity.MainActivity.OnInit | app/src/main/java/com/example/constraintlayout/MainActivity.kt:164-179 | `ttsInitialized` becomes the `TtsReady` decision for the status and the engine's language result |
| Activity.RestartThenEvent | app/src/main/java/com/example/constraintlayout/MainActivity.kt:55-85 | starting a session over any stored contents and delivering a change event leaves the store as it was |
| Activity.EditThenReload | app/src/main/java/com/example/constraintlayout/MainActivity.kt:55-138 | after typing both fields, the next session reads back the parsed pair (0 for unparseable fields), given no negative value was stored at the start |

## Left out

- Text-to-speech engine creation, `speak`, `stop` and `shutdown`, and the share intent. These are platform I/O. Whether the engine was created is a constructor parameter, and the speak button returns the amount it would speak.
- Logging, layout inflation and view lookup. The result view's initial, layout-given text is `LayoutText`.
- The layout is not part of this model. The two input fields are taken to start empty, as an `EditText` without preset text does.
- `try`/`catch` paths, including the fallbacks in `calcularValor`, `onInit` and the startup coroutine. Parse failure is `None`.
- Floating-point behaviour. Amounts are exact reals, so the model does not capture `Float` versus `Double` precision, NaN and float equality in the change test, or the `%.2f` rounding and the locale's decimal separator.
- Split.Calcular: the division is exact over reals. Rounding to two decimals for display is not modelled.
- KotlinInt.ParseInt: accepts ASCII digits only. Kotlin's `toIntOrNull` also accepts other Unicode decimal digits.
- `toDoubleOrNull`, `toFloatOrNull` and `Float.toString()` are not defined here. They are platform parameters. A lemma that depends on them assumes only `EmptyIsNotFloat` and `ReadsBack` for the one stored value involved.
- Coroutine interleaving. The model runs the startup coroutine to completion before change events arrive, as in program order. On a real dispatcher it may resume after the listeners are registered, and its `setText` calls then fire the watcher before the snapshot is set.
- Overlapping save coroutines. They are not modelled, because writes complete synchronously and the snapshot is updated right after them.
- Durability and atomicity of the underlying store. The model claims no pair atomicity; the two slots are two edits.
- Activity.MainActivity.AfterTextChanged: the model has no nested change events, because nothing inside the watcher changes a field. The guard branch is specified but never reached from the other methods.
