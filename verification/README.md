# web-tools core, modelled in Dafny

web-tools is a single-page browser toolbox (`main.js`). This project models the parts
of it that are plain logic rather than page plumbing, and proves what each of them
guarantees:

- **Recent tools** (`RecentTools`): `addToRecentTools` moves the opened tool to the
  front of the recent list, drops its earlier occurrence and keeps at most three.
- **Saved passwords** (`Passwords`): `savePassword` appends the password with its
  timestamp and keeps only the last ten; an empty password stores nothing.
  `updatePasswordStrength` rates a password Weak, Medium or Strong by its length alone.
- **User-agent classification** (`UserAgent`, with `Strings` for substring search):
  `guessBrowser`, `guessOS` and `guessDevice` are first-match chains of `includes`
  tests. `isMobile` is the case-insensitive pattern `/Mobile|Android|iPhone|iPad|iPod/i`.
  `parseUserAgent` runs all four on a non-empty string. `UserAgentExamples` runs
  three real user-agent strings through them. Because the first listed token wins,
  an Android phone is reported as Linux, an iPhone as macOS and the EdgeHTML browser
  as Chrome.
- **Text diff** (`Diff`): `showDiff` splits both texts on `"\n"` and compares them
  line by line. A missing line counts as empty. An equal pair gives one unchanged
  row; an unequal pair gives a removed row and then an added row.
- **UUID generator** (`Uuid`): `generateUUID` fills the v1 or v4 template. Each `x`
  becomes a random hexadecimal digit, and each `y` becomes `(r & 0x3) | 0x8`.

Strings are Dafny strings: sequences of Unicode scalar values. JavaScript strings are
sequences of UTF-16 code units. The two agree on every string without characters
beyond U+FFFF. A character beyond U+FFFF counts once here and twice in JavaScript,
which matters only for a length (see `Passwords.StrengthOf` under "Left out").
Substring search is unaffected: every token tested is ASCII, and an ASCII token
occurs in a string exactly when it occurs in the string's UTF-16 form. The ASCII case
folding in `Strings.Fold` is exact for the `/i` pattern: without the `u` flag,
JavaScript's case-insensitive matching maps no non-ASCII character onto the ASCII
letters of these tokens.

## Model

| member | source | states |
|---|---|---|
| RecentTools.Without | main.js:250 | `filter(id => id !== toolId)` removes every occurrence of the id and nothing else. Its members are those of the input minus the id, its multiset is the input's with the id's count set to zero, it keeps the input's order, and it is the identity when the id is absent. |
| RecentTools.AddToRecent | main.js:246-258 | The opened tool comes first and appears exactly once. At most three tools are kept. The rest are the previous list without the tool, in the same order, cut to fit. No tool that was not there before appears. Re-opening a listed tool never lengthens the list. |
| RecentTools.AddIdempotent | main.js:246-258 | Opening the same tool twice leaves the list as opening it once does. |
| RecentTools.AddPreservesValid | main.js:246-258 | A list of at most three distinct tools stays one. |
| RecentTools.ReAddKeepsMembers | main.js:250-257 | Re-opening a tool already on a valid list only reorders it: same length, same tools. |
| RecentTools.AddNewToFullEvictsOldest | main.js:253-257 | Opening a new tool when three are listed drops the last one: the result is the new tool followed by the first two old ones. |
| RecentTools.SubsequenceTransitive | main.js:250-257 | Order-preservation composes. The filter and the truncation each keep the relative order of the remaining tools, so their composition does too. |
| Passwords.Label | main.js:539-547 | The indicator texts "Weak", "Medium" and "Strong" each belong to exactly one strength. |
| Passwords.StrengthText | main.js:538-553 | The text shown is "Strong" exactly when the length is at least 12, "Medium" exactly when it is 8 to 11, and "Weak" exactly when it is below 8. |
| Passwords.StrengthOf | main.js:538-549 | Strong exactly when the length is at least 12, Medium exactly when it is 8 to 11, Weak exactly when it is below 8. |
| Passwords.StrengthDependsOnlyOnLength | main.js:538-549 | Two passwords of the same length get the same label. |
| Passwords.StrengthMonotone | main.js:543-549 | A longer password is never rated weaker. |
| Passwords.Save | main.js:557-572 | An empty password leaves the store unchanged. Otherwise the new entry is last, the length is one more up to ten, and the entries before it are the newest of the old ones in order. Below ten entries it is a plain append. A store of at most ten stays at most ten. |
| Passwords.SaveIsWindow | main.js:562-570 | A non-empty save is exactly the last ten entries of the old store with the new entry appended. |
| Passwords.SaveAllKeepsMostRecent | main.js:557-572 | After any sequence of non-empty saves, the store holds exactly the ten most recent entries of the whole history, oldest first. |
| Passwords.LastNAppend | main.js:568-570 | Trimming to the last ten before appending more does not change the final ten. |
| Strings.Includes | main.js:874 | `includes` is true exactly when the token occurs at some position of the string. |
| Strings.IncludesIgnoringCase | main.js:901 | A case-insensitive test is true exactly when the token occurs at some position, with letters compared regardless of case. |
| Strings.FoldedSearch | main.js:901 | Searching after folding both strings to lower case is the same as searching with case ignored. |
| Strings.ContainsIgnoresCase | main.js:901 | An exact occurrence is also a case-insensitive one. |
| Strings.MissingCharExcludes | main.js:873-902 | A string that lacks one of a token's characters does not contain the token. |
| Strings.PieceOccurs | main.js:873-902 | Each piece of a concatenation occurs in it. |
| UserAgent.AnyTokenOccurs | main.js:879 | True exactly when one of the tokens occurs, exactly or ignoring case as the rule says. |
| UserAgent.FirstMatchIsEarliest | main.js:873-882 | A first-match chain returns the label of the first rule that matches. |
| UserAgent.FirstMatchDefault | main.js:873-882 | When no rule matches, the chain returns its default. |
| UserAgent.GuessBrowser | main.js:873-882 | "Chrome" iff the string contains Chrome. "Firefox" iff Firefox but not Chrome. Each later label iff its token occurs and no earlier one does. "Internet Explorer" iff MSIE or Trident/ occurs after those. Otherwise "Unknown". |
| UserAgent.BrowserIsFirstMatch | main.js:873-882 | The browser guess is the first match of the ordered rule table Chrome, Firefox, Safari, Edge, Opera, Internet Explorer. |
| UserAgent.GuessOS | main.js:884-891 | "Windows" iff Windows occurs. "macOS" iff Mac OS but not Windows. "Linux", "Android" and then "iOS" (iOS or iPhone) each iff its token occurs and none of the earlier ones. Otherwise "Unknown". |
| UserAgent.OSIsFirstMatch | main.js:884-891 | The OS guess is the first match of the ordered rule table Windows, macOS, Linux, Android, iOS. |
| UserAgent.IsMobile | main.js:900-902 | True exactly when Mobile, Android, iPhone, iPad or iPod occurs in the string, ignoring case. |
| UserAgent.MobileTokenIsMobile | main.js:900-902 | A string containing "Mobile" is mobile. |
| UserAgent.MobilePatternIsRule | main.js:900-902 | The mobile pattern is the case-insensitive rule over the same five tokens. |
| UserAgent.GuessDevice | main.js:893-898 | "Desktop" iff the string is not mobile and has no Tablet. "Tablet" iff it has Tablet but not Mobile. "Mobile" iff it has Mobile, or it has no Tablet and is mobile. |
| UserAgent.DeviceIsFirstMatch | main.js:893-898 | The device guess is the first match of the table Mobile (exact), Tablet, mobile pattern (ignoring case), with "Desktop" as the default. |
| UserAgent.ParseUserAgent | main.js:842-870 | An empty string gives no report. Otherwise the browser, OS and device are the first matches of their tables. The device is `guessDevice`'s answer and the Mobile line is `isMobile`'s. A Desktop device is never reported mobile, and a Mobile one always is. |
| UserAgentExamples.AndroidPhoneReportsLinux | main.js:873-902 | A Chrome-on-Android user agent contains Android, yet is reported as Linux; the browser is Chrome and the device Mobile. |
| UserAgentExamples.IPhoneReportsMacOS | main.js:873-902 | A Safari-on-iPhone user agent contains iPhone, yet is reported as macOS; the browser is Safari and the device Mobile. |
| UserAgentExamples.LegacyEdgeReportsChrome | main.js:873-891 | An EdgeHTML user agent contains Edge, yet is reported as Chrome on Windows. |
| Diff.SplitLines | main.js:706-707 | `split("\n")` always yields at least one line, and no line contains a newline. |
| Diff.JoinSplit | main.js:706-707 | Joining the split lines with newlines gives back the text. |
| Diff.SplitJoin | main.js:706-707 | Splitting lines that contain no newline, after joining them, gives back the same lines. |
| Diff.SplitTrailingNewline | main.js:706-707 | A trailing newline adds one empty last line and leaves the others unchanged. |
| Diff.LineAt | main.js:712-713 | `lines[i] \|\| ""` never alters a line that exists, although an empty line is falsy, and reads an index past the end as an empty line. |
| Diff.RowEntries | main.js:715-726 | A row gives one unchanged entry exactly when its two lines agree, otherwise a removed entry followed by an added one. Every entry is numbered i + 1. The row's old side is the old line and its new side the new line. |
| Diff.Rows | main.js:711-727 | n rows give between n and 2n entries, each numbered from 1 to n. |
| Diff.RowsReconstruct | main.js:709-729 | The old side of the rows is the original's lines padded with empty lines to the longer count, and likewise the new side for the modified text. |
| Diff.RowsNumbered | main.js:711-729 | There are between n and 2n rows for n compared lines. Each row is numbered from 1 to n, and the numbers never decrease. |
| Diff.RowsUnchangedIff | main.js:715-719 | Every row is unchanged exactly when every compared line pair, with missing lines read as empty, is equal. |
| Diff.CompareLines | main.js:709-729 | The loop produces the rows for all lines up to the longer count. Its two sides are the padded line lists of the two texts. |
| Diff.ShowDiff | main.js:688-729 | Nothing is compared iff both texts are empty. The texts are reported identical iff they are equal and non-empty. When changes are shown, the texts differ and the entries are the row listing over the longer line count. Each side is that text's lines padded with empty lines, and the unpadded part, joined with newlines, gives back the text. |
| Diff.TrailingNewlineShowsNoChangedRow | main.js:703-719 | A text and the same text with a trailing newline differ, yet every row of their comparison is unchanged. |
| Uuid.HexDigit | main.js:650 | `v.toString(16)` for a value below 16 is a lower-case hexadecimal digit. |
| Uuid.HexValue | main.js:650 | Every lower-case hexadecimal digit is the digit of its value. |
| Uuid.Variant | main.js:649 | `(r & 0x3) \| 0x8` is 8 plus the two low bits of r. |
| Uuid.Template | main.js:643-662 | Both templates are 36 characters with 31 placeholders. |
| Uuid.TemplateLayout | main.js:643-662 | The template has dashes at positions 8, 13, 18 and 23, the version digit at 14, `y` at 19, and `x` everywhere else. |
| Uuid.VersionDigit | main.js:643-644 | The version digit is 1 exactly when the selected value is "v1", and 4 otherwise. |
| Uuid.Fill | main.js:645-652 | Replacing each placeholder with the next random value gives a string of the template's shape: same length, a hexadecimal digit for each `x`, one of 8, 9, a, b for each `y`, and every other character kept. |
| Uuid.FillRead | main.js:644-652 | Every string of the template's shape is a fill: reading back its values and filling again reproduces it. |
| Uuid.ReadFill | main.js:644-652 | Reading a fill back recovers the random values it kept: all of each `x` value, and the two low bits of each `y` value. |
| Uuid.LayoutIsTemplateShape | main.js:643-662 | A string has the UUID layout exactly when it has the template's shape. |
| Uuid.GenerateUuid | main.js:637-665 | The UUID has 36 characters and dashes at 8, 13, 18 and 23. Position 14 holds 1 for v1 and 4 otherwise, and position 19 holds 8, 9, a or b. Every other position is a lower-case hexadecimal digit. The random values can be read back. |
| Uuid.EveryLayoutIsGenerated | main.js:637-665 | Every string with that layout is produced by some choice of the 31 random values. |

## Left out

- Page plumbing: the DOM reads and writes, HTML rendering, `alert`, the clipboard, the
  dark-mode toggle and the tool navigation. They have no logic to prove.
- `localStorage` and JSON: the stored lists are passed in and returned. A missing key
  (`JSON.parse(null) || []`) is the empty sequence, and the persistence round trip is
  not modelled.
- `new Date().toISOString()`: the timestamp is a parameter of `Passwords.Save`.
- `Math.random()`: replaced by the `nibbles` parameter of `Uuid.GenerateUuid`, one
  value from 0 to 15 per placeholder, in order. Nothing is claimed about the
  distribution.
- Passwords.StrengthOf: returns the label only. The colour class shown next to it is
  styling.
- Passwords.StrengthOf: a length here counts Unicode scalar values. A character beyond
  U+FFFF counts 1, where JavaScript's `length` counts 2, so such a password can be
  rated lower here than in the page. The passwords the page rates come from
  `generatePassword`, which uses ASCII characters only.
- Diff.ShowDiff: returns the rows' numbers and texts, not the HTML markup and CSS
  classes that display them.
- `generatePassword`, `generateMultiplePasswords`, `generateMultipleUUIDs`: they are
  random generation and display loops around the modelled operations.
- Case conversion, the text counters, the JSON formatter, Base64, the URL parser and
  the HTML/CSS/JS minifiers: these tools are outside the modelled core.
- User-agent versions, vendor, CPU, engine and version-number normalisation: `main.js`
  does not compute them, so nothing is modelled for them.
- UTF-16 surrogate pairs: strings are sequences of Unicode scalar values. Only the
  password length is affected; see `Passwords.StrengthOf` above.
