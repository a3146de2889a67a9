# Password manager: a Dafny model

This project models the logic inside a small Tkinter password manager,
`main.py`. The program has three buttons:

- **Generate Password** composes a random password from 8 to 10 letters,
  2 to 4 digits and 2 to 4 symbols, shuffles it, and puts it in the
  password entry.
- **Add** title-cases the website name and rejects an empty website or
  password. After an Ok/Cancel confirmation it writes
  `{website: {"email", "password"}}` into `data.json`, creating the file if
  it is missing. It then clears the website and password entries.
- **Search** title-cases the website name and reports one of three things:
  no data file, no such website, or the stored email and password.

Modules:

- `Ascii` (ascii.dfy): ASCII letter and digit classes, and upper- and
  lower-casing.
- `TitleCase` (title_case.dfy): Python's `str.title` on ASCII. Like
  CPython's own loop, it walks the string remembering whether the previous
  character was cased.
- `PasswordGenerator` (password_generator.dfy): the three pools, the draws,
  an in-place Fisher-Yates `Shuffle` on an `array<char>` (the algorithm of
  `random.shuffle`), and `GeneratePassword`. Each random choice is a
  nondeterministic `:|` choice, so the contracts hold for every outcome.
- `CredentialStore` (credential_store.dfy): `Record` and `data.json` as
  `Option<map<string, Record>>`, where `None` means the file does not
  exist. `Upsert` specifies the file after a confirmed save; lemmas cover
  overwrite, idempotence and save-then-find.
- `PasswordManagerForm` (password_manager_form.dfy): class `Form` holds the
  three entry texts and the file. It has the three button handlers as
  methods, plus two user scenarios that chain them.

## Model

| member | source | states |
|---|---|---|
| `Ascii.ToUpper` | main.py:92 | upper-casing keeps letters letters and non-letters unchanged; a letter becomes upper case |
| `Ascii.ToLower` | main.py:92 | lower-casing keeps letters letters and non-letters unchanged; a letter becomes lower case |
| `Ascii.CaseMapsAgree` | main.py:92 | upper- and lower-casing only change a letter's case: each undoes the other and both are idempotent |
| `TitleCase.TitleChar` | main.py:92 | one step of `str.title`: a letter is upper case exactly when the previous character was uncased; its lower-cased form and letter-ness are kept; non-letters pass through |
| `TitleCase.TitleFrom` | main.py:92 | the title-case walk keeps the string's length |
| `TitleCase.Title` | main.py:92 | `s.title()` has the length of `s`, so the title-cased website is empty exactly when the entry is |
| `TitleCase.TitleAt` | main.py:92 | position by position: a letter that starts a word (first, or after a non-letter) is upper-cased, any other letter lower-cased, non-letters unchanged |
| `TitleCase.TitleIdempotent` | main.py:130 | title-casing an already title-cased name changes nothing |
| `TitleCase.TitleIgnoresCase` | main.py:92 | two names get the same key if and only if they differ only in the case of their letters |
| `TitleCase.TitleAfterDigit` | main.py:92 | `"3com".title() == "3Com"`: digits are uncased |
| `TitleCase.TitleAfterApostrophe` | main.py:92 | `"o'neil".title() == "O'Neil"`: an apostrophe is uncased |
| `PasswordGenerator.LettersAreAsciiLetters` | main.py:17-70 | the letter pool holds exactly the 52 ASCII letters |
| `PasswordGenerator.NumbersAreAsciiDigits` | main.py:71 | the number pool holds exactly the 10 ASCII digits |
| `PasswordGenerator.SymbolsAreNotAlphanumeric` | main.py:72 | the 11 symbols are neither letters nor digits |
| `PasswordGenerator.PoolsAreDisjoint` | main.py:17-72 | no character is in two pools |
| `PasswordGenerator.CountConcat` | main.py:78 | the per-pool count of a concatenation is the sum of the counts |
| `PasswordGenerator.CountOfDraw` | main.py:74-76 | a draw from one pool counts fully towards that pool and zero towards the others |
| `PasswordGenerator.CountPermutation` | main.py:79 | strings with the same multiset of characters have the same count for every pool, so shuffling keeps the composition |
| `PasswordGenerator.CountsAddUp` | main.py:78 | for pooled characters, the three pool counts add up to the length |
| `PasswordGenerator.WellComposedLength` | main.py:74-78 | 8-10 letters, 2-4 digits and 2-4 symbols give a length from 12 to 18 |
| `PasswordGenerator.Draw` | main.py:74-76 | `[choice(pool) for _ in range(n)]` has length `n`, and every character is from `pool` |
| `PasswordGenerator.Shuffle` | main.py:79 | the in-place shuffle leaves a permutation of the array's contents |
| `PasswordGenerator.GeneratePassword` | main.py:17-81 | every password is drawn only from the pools, has 8-10 letters, 2-4 digits and 2-4 symbols, and is 12 to 18 characters long |
| `CredentialStore.Upsert` | main.py:107-120 | after a save, the key maps to the new record. A missing file becomes one holding only that key. An existing file keeps its other keys and their values |
| `CredentialStore.UpsertOverwrites` | main.py:116 | a second save under the same key replaces the first record entirely |
| `CredentialStore.UpsertIdempotent` | main.py:116 | saving the same record twice leaves the store as after the first save |
| `CredentialStore.UpsertKeepsKeysTitleCased` | main.py:92-116 | if every stored key is title-cased, it stays so after a save |
| `CredentialStore.FindAfterSave` | main.py:92-140 | after a save, a query differing only in letter case finds the saved record |
| `CredentialStore.FindByStoredKey` | main.py:130-140 | in a store with title-cased keys, typing a stored key verbatim finds its record |
| `CredentialStore.SaveLeavesOtherQueries` | main.py:116 | a save leaves untouched whether, and what, any other (case-insensitively different) query finds |
| `PasswordManagerForm.Form.constructor` | main.py:170-179 | the entries start empty except the email, which holds `zbeeblebrox@email.com` |
| `PasswordManagerForm.Form.GeneratePassword` | main.py:15-85 | the password entry ends holding a well-composed 12-18 character password; nothing else changes |
| `PasswordManagerForm.Form.Save` | main.py:91-123 | rejects an empty title-cased website or empty password, changing nothing (empty email is allowed). A declined confirmation changes nothing. A confirmed save sets the file to `Upsert` of the old file, clears the website and password, and keeps the email |
| `PasswordManagerForm.Form.FindPassword` | main.py:129-145 | three outcomes: no file gives `NoDataFile`; a file without the title-cased key gives `NotFound`; otherwise the stored record under that key is returned |
| `PasswordManagerForm.SaveThenFind` | main.py:91-145 | a confirmed save, then a search with the name in any letter case, shows the saved email and password |
| `PasswordManagerForm.OverwriteThenFind` | main.py:91-145 | saving "test"/"A" and then "TEST"/"B" makes a search for "Test" show "B" |

## Left out

- The Tkinter window, canvas, labels and buttons (main.py:149-216): these
  are UI construction. The entries are plain string fields, and the Ok/Cancel
  answer is the `confirmed` argument.
- The message boxes: each becomes the outcome returned by `Save` or
  `FindPassword`. The confirmation box's text is not modelled.
- `pyperclip.copy` (main.py:85): a call into the OS clipboard.
- JSON encoding and decoding, `indent=4`, and opening, reading and writing
  files: `data.json` is an optional map, replaced whole on each save.
- A malformed `data.json`, which makes `json.load` raise: the program does
  not handle it.
- Crashes during a write and concurrent writers: the program does not guard
  against them.
- Actual randomness: `randint`, `choice` and the index chosen inside
  `shuffle` are nondeterministic choices. No claim is made about
  distributions.
- The fixed-length, rejection-sampling generator that some descriptions of
  this program mention: `main.py` has only the pooled 12-18 character
  generator, and the code is followed. Its passwords therefore need not
  contain an upper-case letter or three digits.
- `str.title` on non-ASCII text: only ASCII letters are cased here.
- The colour constants (main.py:6-8).
