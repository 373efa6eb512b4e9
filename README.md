# Task-renaming screen: a Dafny model

This project models the one piece of logic in the Android demo screen
`PruebaModificacionLazy`. The screen keeps an in-memory list of four tasks
(`Tarea`, ids 101–104). The user can rename a task by typing its id into the
"ID" field and a new name into the "Nuevo Nombre" field, then pressing
"Modificar Nombre".

- `kotlin_text.dfy` (module `KotlinText`) models the Kotlin text operations
  the screen relies on:
  - the ID field's filter `filter { it.isDigit() }`;
  - `isWhitespace` and `trim()` on the new name;
  - `toIntOrNull()` on the ID text;
  - `Int.toString()` as it appears inside the feedback messages.
- `main_activity.dfy` (module `MainActivity`) models the screen itself:
  - the `Task` record and the seeded list;
  - the linear `find` by id;
  - the button's decision as three pure functions: `Classify` picks the outcome
    (renamed, id not found, or rejected input), `Apply` gives the new list and
    `Feedback` gives the message;
  - the "starts with Error" colour rule;
  - the class `Screen`, which holds the list and the three form fields
    (`idTexto`, `nuevoNombreTexto`, `mensajeFeedback`). Its methods are the two
    field edits and the button press. `ModifyName` updates the fields in place
    and is proved equal to the three functions.

The invariant `Screen.Valid()` holds from construction through every method. It
says two things:
- the list keeps ids 101, 102, 103, 104 in that order;
- every name is either the task's original name or a non-empty name with no
  whitespace at either end.

That the ID field holds only digits is stated by the methods that write it: the
constructor and `ModifyName` leave it empty, and `EditId` stores only the
filtered digits.

A digit string too large for a Kotlin `Int` (for example `2147483648`) makes
`toIntOrNull` return null, and the press then reports
"Error: Complete ID y Nuevo Nombre.", exactly as for an empty ID
(`ParseDigits`, `ParseNatDecimal`).

## Model

| member | source | states |
|---|---|---|
| `KotlinText.IsDigit` | app/src/main/java/com/example/myapplicationtemp/MainActivity.kt:90 | definition: `Char.isDigit`, on the ASCII digits '0' to '9' |
| `KotlinText.FilterDigits` | app/src/main/java/com/example/myapplicationtemp/MainActivity.kt:90 | the filtered ID text holds only digits and is no longer than what was typed |
| `KotlinText.FilterDigitsAppend` | app/src/main/java/com/example/myapplicationtemp/MainActivity.kt:90 | filtering distributes over concatenation, so the kept digits stay in their typed order |
| `KotlinText.FilterDigitsCounts` | app/src/main/java/com/example/myapplicationtemp/MainActivity.kt:90 | each digit is kept exactly as many times as it was typed; no other character is kept |
| `KotlinText.FilterDigitsFixpoint` | app/src/main/java/com/example/myapplicationtemp/MainActivity.kt:90 | the filter leaves text unchanged exactly when it is all digits |
| `KotlinText.FilterDigitsIdempotent` | app/src/main/java/com/example/myapplicationtemp/MainActivity.kt:90 | filtering already-filtered text changes nothing |
| `KotlinText.IsWhitespace` | app/src/main/java/com/example/myapplicationtemp/MainActivity.kt:108 | definition: the characters the JVM's `Char.isWhitespace` accepts (the controls TAB to CR and FS to US, the space, no-break and other Unicode space separators, and the line and paragraph separators) |
| `KotlinText.TrimStart` | app/src/main/java/com/example/myapplicationtemp/MainActivity.kt:108 | the result is a suffix of the input; everything dropped is whitespace; the result does not start with whitespace |
| `KotlinText.TrimEnd` | app/src/main/java/com/example/myapplicationtemp/MainActivity.kt:108 | the result is a prefix of the input; everything dropped is whitespace; the result does not end with whitespace |
| `KotlinText.Trim` | app/src/main/java/com/example/myapplicationtemp/MainActivity.kt:108 | the trimmed name is empty exactly when the input is all whitespace; otherwise it is non-empty with no whitespace at either end |
| `KotlinText.LeadingWhitespace` | app/src/main/java/com/example/myapplicationtemp/MainActivity.kt:108 | definition: how many characters `trim()` drops from the front |
| `KotlinText.TrimIsSlice` | app/src/main/java/com/example/myapplicationtemp/MainActivity.kt:108 | the trimmed name is exactly the slice of the input between its leading and trailing whitespace: everything before the slice and everything after it is whitespace |
| `KotlinText.TrimIdempotent` | app/src/main/java/com/example/myapplicationtemp/MainActivity.kt:108 | a name with no whitespace at its ends is its own trim; trimming twice equals trimming once |
| `KotlinText.ParseInt` | app/src/main/java/com/example/myapplicationtemp/MainActivity.kt:107 | definition: `toIntOrNull()` in radix 10 — an optional leading `-` or `+`, then one or more digits, and a value within `Int.MIN_VALUE`..`Int.MAX_VALUE`; null for the empty string, a lone sign, any other character, and any value out of range |
| `KotlinText.ParseDigits` | app/src/main/java/com/example/myapplicationtemp/MainActivity.kt:107 | on digit-only text, `toIntOrNull` succeeds exactly when the text is non-empty and its value is at most `Int.MAX_VALUE`, and then gives that value |
| `KotlinText.ParseNatDecimal` | app/src/main/java/com/example/myapplicationtemp/MainActivity.kt:107 | the digits of a natural number parse back to that number when it is at most `Int.MAX_VALUE`, and to null from 2147483648 up |
| `KotlinText.NatToDecimal` | app/src/main/java/com/example/myapplicationtemp/MainActivity.kt:115 | the decimal rendering of a natural number is non-empty, all digits, has no leading zero (0 is printed as "0" alone) and reads back as the same number |
| `KotlinText.IntToDecimal` | app/src/main/java/com/example/myapplicationtemp/MainActivity.kt:117 | the id printed into a message is non-empty and contains no space |
| `KotlinText.ParseIntToDecimal` | app/src/main/java/com/example/myapplicationtemp/MainActivity.kt:107 | `toIntOrNull` reads back every `Int` that `toString` prints (round trip) |
| `KotlinText.IntToDecimalInjective` | app/src/main/java/com/example/myapplicationtemp/MainActivity.kt:117 | different ids are printed differently |
| `MainActivity.Task` | app/src/main/java/com/example/myapplicationtemp/MainActivity.kt:48-53 | definition: a `Tarea` record with its fixed `id`, its `nombreInicial` and its current `nombre` |
| `MainActivity.Seed` | app/src/main/java/com/example/myapplicationtemp/MainActivity.kt:61-71 | the list starts with ids 101, 102, 103, 104 in that order, and each current name equals the task's initial name |
| `MainActivity.SeedIdsDistinct` | app/src/main/java/com/example/myapplicationtemp/MainActivity.kt:62-67 | no two seeded tasks share an id |
| `MainActivity.Prompt` | app/src/main/java/com/example/myapplicationtemp/MainActivity.kt:76 | definition: the start-up message "Ingrese ID y nuevo nombre." |
| `MainActivity.SuccessMessage` | app/src/main/java/com/example/myapplicationtemp/MainActivity.kt:115 | definition: "Tarea #<id> modificada a '<name>'." |
| `MainActivity.NotFoundMessage` | app/src/main/java/com/example/myapplicationtemp/MainActivity.kt:117 | definition: "Error: ID <id> no encontrado." |
| `MainActivity.RejectMessage` | app/src/main/java/com/example/myapplicationtemp/MainActivity.kt:120 | definition: "Error: Complete ID y Nuevo Nombre." |
| `MainActivity.ShownAsError` | app/src/main/java/com/example/myapplicationtemp/MainActivity.kt:134 | definition: the message starts with "Error", which selects the red colour |
| `MainActivity.PromptNotError` | app/src/main/java/com/example/myapplicationtemp/MainActivity.kt:134 | the start-up prompt (line 76) is not shown in the error colour |
| `MainActivity.IndexOfId` | app/src/main/java/com/example/myapplicationtemp/MainActivity.kt:111 | the result is the first position holding the id, or none when no task has that id |
| `MainActivity.Find` | app/src/main/java/com/example/myapplicationtemp/MainActivity.kt:111 | the linear scan returns the first task with the id, or none when no task has it |
| `MainActivity.Classify` | app/src/main/java/com/example/myapplicationtemp/MainActivity.kt:107-121 | the press is rejected exactly when the ID does not parse or the trimmed name is empty. Otherwise the outcome is a rename of the first task with that id, carrying the trimmed name, or "not found" when no task has the id |
| `MainActivity.Apply` | app/src/main/java/com/example/myapplicationtemp/MainActivity.kt:111-114 | the length, every id and every initial name stay the same. Only a rename changes a task, only the task it points at, and that task then has the new name. The list is unchanged on "not found" and on rejection |
| `MainActivity.Feedback` | app/src/main/java/com/example/myapplicationtemp/MainActivity.kt:115-134 | the message is shown in the error colour exactly when the press did not rename a task |
| `MainActivity.SuccessMessageInjective` | app/src/main/java/com/example/myapplicationtemp/MainActivity.kt:115 | the success message determines the id and the new name it reports |
| `MainActivity.NotFoundMessageInjective` | app/src/main/java/com/example/myapplicationtemp/MainActivity.kt:117 | the not-found message determines the id it reports |
| `MainActivity.FeedbackMarks` | app/src/main/java/com/example/myapplicationtemp/MainActivity.kt:117-120 | every message is longer than seven characters, and the two error messages differ at the eighth ("Error: I…" for not found, "Error: C…" for rejected) |
| `MainActivity.FeedbackIdentifiesOutcome` | app/src/main/java/com/example/myapplicationtemp/MainActivity.kt:115-120 | equal feedback messages come from the same kind of outcome, with the same id and (for a rename) the same name |
| `MainActivity.PressIdempotent` | app/src/main/java/com/example/myapplicationtemp/MainActivity.kt:107-121 | pressing again with the same field contents gives the same outcome and leaves the list as the first press left it |
| `MainActivity.PressKeepsValid` | app/src/main/java/com/example/myapplicationtemp/MainActivity.kt:108-114 | a press keeps ids 101–104 in place and never stores a name that is empty or has whitespace at either end |
| `MainActivity.ParseId102` | app/src/main/java/com/example/myapplicationtemp/MainActivity.kt:107 | the ID text "102" reads as the id 102 |
| `MainActivity.RenameScenario` | app/src/main/java/com/example/myapplicationtemp/MainActivity.kt:106-114 | on the seeded list, any ID text that reads as 102 with any name that has no whitespace at its ends (such as "Compose Avanzado") is a rename of task 102, the second task, to exactly that name |
| `MainActivity.RenameScenarioApply` | app/src/main/java/com/example/myapplicationtemp/MainActivity.kt:111-114 | that rename gives task 102 the new name and leaves the other three tasks unchanged |
| `MainActivity.RenameScenarioFeedback` | app/src/main/java/com/example/myapplicationtemp/MainActivity.kt:115 | that rename reports "Tarea #102 modificada a 'Compose Avanzado'." |
| `MainActivity.ParseId999` | app/src/main/java/com/example/myapplicationtemp/MainActivity.kt:107 | the ID text "999" reads as the id 999 |
| `MainActivity.NotFoundScenario` | app/src/main/java/com/example/myapplicationtemp/MainActivity.kt:111-118 | on the seeded list, an ID outside 101–104 (such as "999") with a name that is not blank is "not found" and leaves the list unchanged |
| `MainActivity.NotFoundScenarioFeedback` | app/src/main/java/com/example/myapplicationtemp/MainActivity.kt:117 | that press reports "Error: ID 999 no encontrado." |
| `MainActivity.EmptyIdScenario` | app/src/main/java/com/example/myapplicationtemp/MainActivity.kt:119-121 | an empty ID changes nothing and reports the fixed rejection message, whatever the name |
| `MainActivity.Screen.constructor` | app/src/main/java/com/example/myapplicationtemp/MainActivity.kt:61-76 | the screen starts with the seeded list unchanged by the self-assignment pass, both fields empty, and the prompt shown |
| `MainActivity.Screen.EditId` | app/src/main/java/com/example/myapplicationtemp/MainActivity.kt:89-90 | the ID field becomes the digits of what was typed; nothing else changes |
| `MainActivity.Screen.EditNewName` | app/src/main/java/com/example/myapplicationtemp/MainActivity.kt:97-98 | the name field becomes what was typed; nothing else changes |
| `MainActivity.Screen.ModifyName` | app/src/main/java/com/example/myapplicationtemp/MainActivity.kt:106-125 | the list and feedback become what `Apply` and `Feedback` give for the press's outcome; both input fields are cleared whatever the outcome; the screen invariant is kept |
| `MainActivity.RenameSession` | app/src/main/java/com/example/myapplicationtemp/MainActivity.kt:89-125 | usage example: on a fresh screen, typing "1x02" leaves "102" in the ID field; typing a trimmed name and pressing the button gives task 102 that name, leaves task 101 unchanged, reports the success message and clears both fields |

## Left out

- The Compose layout and rendering are not modelled: `Scaffold`, `Column`/`Row`, the text fields' labels and keyboard options, `Card`, `LazyColumn`, `TareaItem`, theming, `Greeting`/`GreetingPreview` and the activity lifecycle. They are framework wiring with no behaviour of their own.
- Recomposition is not modelled: `MutableState`, `mutableStateListOf`, and which row re-renders after a rename. The current name is a plain field of the task record.
- The list is a sequence of task values, not a list of shared `Tarea` objects. Nothing else holds a reference to a task, so the difference cannot be observed.
- The colours are not modelled: `Color.Red`/`Color.Green` become the boolean `ShownAsError`.
- `singleLine = true` is not modelled: the name field accepts any text.
- `KotlinText.IsDigit`: only the ASCII digits count. Kotlin's `isDigit` and the digit reading in `toIntOrNull` also accept the other Unicode decimal digits (for example Arabic-Indic digits).
- `KotlinText.IsWhitespace`: the characters are those the JVM treats as whitespace in current Unicode. Characters whose category changed between Unicode versions (U+180E) are not included.
- Strings are sequences of Unicode scalar values, not of UTF-16 code units as a Kotlin `String` is. Every whitespace character and every ASCII digit lies in the Basic Multilingual Plane, so `filter` and `trim` behave the same, but a text holding a lone surrogate cannot be represented.
