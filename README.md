# kbsw — a verified model of the keyboard-layout switcher

kbsw is a small Windows tool. It switches the keyboard layout of the focused
window when a modifier or lock key (LCtrl, RShift, CapsLock, ...) is tapped
twice quickly. When the double tap happens while another modifier is held, it
instead retypes the selected text as if it had been typed in the chosen
layout; it does this by driving copy and paste through the clipboard. A
dummy layout named `HEX` converts between `U+XXXX` notation and characters.

This project models the program's logic in Dafny and proves what the code
promises about it. There are four parts, one or more modules each:

- **The double-tap detector** (`kbswhook.c`), module `SwitchDetector`.
  - The hook's three globals (current switch, last key-down time, transition
    count) live in the class `KeyboardHook`, and `SwitchDown`, `SwitchUp` and
    `LowLevelKeyboardHook` update them in place.
  - Each is proved equal to a pure transition function on a `SwitchState`
    value.
  - Lemmas over event streams show:
    - at most one activation per sequence;
    - key-downs alone and injected events never activate;
    - the documented double-tap scenario.
  - `DWORD` time stamps wrap modulo 2^32 (`Common.Sub32`, `Common.Inc32`).
- **The transliteration engine** (`src/mojibake.c` and its earlier revision
  `mojibake.c`):
  - `CodepointCodec`: the `U+XXXX` and character codecs, written as loops
    that fill a bounded output buffer. Each is proved to produce exactly the
    clipped result of a specification function. The round trip
    hex(unicode(s)) is proved.
  - `LayoutDetector`: the scoring and choice of the source layout.
  - `Transliteration`: retyping text in another layout, and the clipboard
    decision.
  - `KeyChord`: the synthetic copy and paste key sequences.
  - `SpecialHandlingRules`: the per-application classifier.
  - `MojibakeEngine`: the four-state engine and its timer, and runs of
    events through it (requests, clipboard notifications, ticks).
- **The configuration logic**:
  - module `Kbsw` for the current `src/kbsw.c`: key names, the key and
    layout tables, KLID normalisation, automatic layout assignment, the
    option setter, activation dispatch and `main`'s decisions;
  - module `KbswEarly` for the earlier `kbsw.c`: key names, the switch
    table and the option setter.
- **The help-text driven command-line parser** (`docopt.c`):
  - module `Docopt`: option lines, argument matching and the keyword search
    `DocOptFindLineWithWord`;
  - module `DocoptParse`: the iteration over option lines, defaults and
    `DocOptParseCommandLine`, generic over the application's option setter.
    The imperative driver runs against the earlier `kbsw.c` options, since
    the three-argument `docopt.c` is the version built with the earlier
    `kbsw.c`.
  - `CLib` holds the C library functions the parser and the configuration
    code depend on: `isspace`, `atoi`, `strtoul(.., 16)`, `strstr` and
    `strchr`.

Windows calls are parameters of the model:

| Win32 call | model |
|---|---|
| `VkKeyScanExW` | a "maps" predicate |
| `ToUnicodeEx` | a retype function |
| `GetAsyncKeyState` | the set of held keys |
| `GetKeyboardLayoutList` | a list |
| `LoadKeyboardLayoutA` | a load function |
| `SetTimer` | a timer id |
| `GetTickCount` | a tick |
| the clipboard calls | success flags and the text |
| `SendInput` | a send function |
| the process image path and window class | a `WindowInfo` value |

## Model

| member | source | states |
|---|---|---|
| Common.Sub32 | kbswhook.c:63 | `elapsed = now - last` on DWORDs is the difference, plus 2^32 when the clock wrapped |
| Common.Inc32 | kbswhook.c:82 | `++gTransitionCount` adds one, wrapping from 2^32-1 to 0 |
| Common.Raise | src/kbsw.c:233 | `if( cmd > command ) command = cmd` (also `kbsw.c:138`): the result is one of the two, never ranks below either, and a request that does not rank higher keeps the current value |
| SwitchDetector.DownTransition | kbswhook.c:61-83 | a trigger key-down always sets the time stamp and leaves the switch current and down; a fresh key-down (another switch, or later than the timeout) sets count 1; autorepeat or a key-down within 10 ms sets 9 and keeps the switch; otherwise the count goes up by one |
| SwitchDetector.UpTransition | kbswhook.c:85-107 | a key-up never moves the time stamp; a key-up of another switch sets NONE; a key-up while up, within 10 ms or after the timeout sets 8; a key-up of the held switch in (10, timeout] advances the count by one; activation happens exactly when the count becomes 4, which needs count 3 and an elapsed time in (10, timeout] |
| SwitchDetector.FindSwitchFrom | kbswhook.c:119-130 | the first configured slot holding the key before any empty slot; none when every slot holding it lies after an empty one |
| SwitchDetector.HookStep | kbswhook.c:116-133 | injected events and unconfigured keys only set NONE and leave count and time stamp; only a configured key-down moves the time stamp; a fresh key-down starts a sequence with count 1; an activation comes only from a real key-up that brings the count to 4 |
| SwitchDetector.NoActivationWithoutFreshStart | kbswhook.c:101-106 | after an activation (count 4 or a sentinel), no event activates again until a fresh key-down starts a new sequence |
| SwitchDetector.AtMostOneActivationPerSequence | kbswhook.c:85-107 | a stream that activates on its first event and has no fresh start afterwards yields exactly one activation |
| SwitchDetector.InjectedEventsNeverActivate | kbswhook.c:116-133 | injected events never activate, and leave only NONE as the current switch |
| SwitchDetector.KeyDownsNeverActivate | kbswhook.c:61-83 | a stream of key-downs alone (autorepeat) never activates |
| SwitchDetector.DoubleTapScenario | kbswhook.c:61-107 | with a 300 ms timeout, down@0 up@50 down@120 up@160 activates exactly once, on the last event; a further down@400 gives count 5 and no activation |
| SwitchDetector.KeyboardHook.constructor | kbswhook.c:20-27 | the hook starts with no current switch, zero time and count, and empty slots |
| SwitchDetector.KeyboardHook.HookConfigure | kbswhook.c:223-231 | every key and id slot and the timeout are copied in; the detector state is untouched |
| SwitchDetector.KeyboardHook.SwitchActivate | kbswhook.c:43-57 | the activation carries the slot's id, and its modifier flag is true exactly when some modifier of the fixed list other than the trigger is held |
| SwitchDetector.KeyboardHook.SwitchDown | kbswhook.c:61-83 | the globals become `DownTransition` of their old values |
| SwitchDetector.KeyboardHook.SwitchUp | kbswhook.c:85-107 | the globals become `UpTransition` of their old values, and an activation is emitted exactly when that transition activates |
| SwitchDetector.KeyboardHook.FindConfiguredSwitch | kbswhook.c:119-130 | the slot loop finds what `FindSwitch` specifies |
| SwitchDetector.KeyboardHook.LowLevelKeyboardHook | kbswhook.c:110-136 | non-action hook codes change nothing; an action event updates the globals and emits what `HookStep` specifies |
| CLib.DecimalStringValue | kbsw.c:132-134 | the decimal digits of n have value n |
| CLib.Atoi | src/kbsw.c:228 | a negative value needs a `-` sign; no digit after the white space and sign reads as 0 |
| CLib.AtoiReadsDecimal | kbsw.c:132-134 | `atoi` reads back a number written in decimal after any white space, whatever non-digit text follows it |
| CLib.AtoiReadsNegative | src/kbsw.c:228 | `atoi` reads back a negated decimal number after any white space, whatever non-digit text follows it |
| CLib.Strtoul16 | kbsw.c:113-115 | `strtoul(s, &end, 16)` returns a value of at most 2^32-1 and an end index within the string |
| CLib.StrtoulReadsHexDigits | kbsw.c:113-115 | a non-empty run of hex digits is consumed completely and read as its value |
| CLib.DigitStartsNumber | kbsw.c:113-115 | text starting with a hex digit has no white space or sign to skip |
| CLib.StrtoulStopsAtJunk | kbsw.c:113-115 | after hex digits, a character that can neither continue nor start a number stops the conversion there (or nothing is converted) |
| CLib.StrStr | docopt.c:29 | `strstr` returns an occurrence of the pattern at or after the start |
| CLib.StrStrIsFirst | docopt.c:29 | `strstr` returns the first occurrence: any occurrence at or after the start is at or after the result |
| CLib.StrChr | kbsw.c:105 | `strchr` returns the first index holding the character, or none when no index holds it |
| CodepointCodec.SplitSurrogates | src/mojibake.c:132-134 | a supplementary code point splits into a high and a low surrogate |
| CodepointCodec.CombineSurrogates | src/mojibake.c:166-168 | a surrogate pair combines into a supplementary code point |
| CodepointCodec.CombineAfterSplit | src/mojibake.c:166-168 | combining the split of a code point gives it back |
| CodepointCodec.SplitAfterCombine | src/mojibake.c:132-134 | splitting the combination of a pair gives it back |
| CodepointCodec.Encode | src/mojibake.c:126-137 | an accepted code point takes one unit below 0x10000 and two units above |
| CodepointCodec.ToHex | src/mojibake.c:173 | the hex digits printed denote the value |
| CodepointCodec.Hex2 | src/mojibake.c:173 | `%02X` prints at least two hex digits that denote the value |
| CodepointCodec.ToHexLength | src/mojibake.c:148 | a value below 16^k needs at most k digits |
| CodepointCodec.Hex2AtMostSix | src/mojibake.c:148 | any code point or code unit needs at most six digits |
| CodepointCodec.DigitsStart | src/mojibake.c:119-122 | `wcstoul` on `+XXXX` converts digits starting 2 units after the `U`, or 4 after it when `0x` follows the `+` |
| CodepointCodec.TokenValue | src/mojibake.c:122 | the digits of a token end at least 3 units after the `U`, within the text |
| CodepointCodec.HexStep | src/mojibake.c:117-141 | one loop iteration consumes at least one unit and emits one or two units, never more than it consumed |
| CodepointCodec.HexStepCopies | src/mojibake.c:119 | only a `U` can start a token: any other unit is copied alone |
| CodepointCodec.HexStepCases | src/mojibake.c:119-141 | `U`, `+` and a hex digit start a token; an accepted value below 0x10000 becomes one unit; a supplementary one becomes its surrogate pair; anything else copies the unit and resumes after it |
| CodepointCodec.HexToUnicodeNotLonger | src/mojibake.c:103-108 | hex to Unicode never lengthens the text, so a buffer of the source length suffices |
| CodepointCodec.HexToUnicodeCopiesPlainText | src/mojibake.c:141 | text without a `U` is copied verbatim |
| CodepointCodec.HexToUnicodeExample | src/mojibake.c:117-142 | "U+0040" becomes "@" |
| CodepointCodec.PieceLength | src/mojibake.c:163-171 | a surrogate pair is read as one character, any other unit alone |
| CodepointCodec.UnicodeToHexFits | src/mojibake.c:146-150 | Unicode to hex needs at most 11 units per source unit |
| CodepointCodec.UnicodeToHexExample | src/mojibake.c:155-181 | "@" becomes "@=U+40 " |
| CodepointCodec.TagToken | src/mojibake.c:119-122 | the `U+` of a tag written by Unicode to hex is a token that reads back the tag's value |
| CodepointCodec.ScalarTagOfReadBack | src/mojibake.c:123-139 | the tag of an accepted code point reads back as `=`, the character, a space |
| CodepointCodec.RejectedTagOfReadBack | src/mojibake.c:123 | a tag whose value is not an accepted code point is copied unchanged |
| CodepointCodec.ScalarTagReadBack | src/mojibake.c:123-139 | the tag printed for an accepted code point reads back as that character |
| CodepointCodec.SurrogateTagReadBack | src/mojibake.c:123 | the tag of a lone surrogate is copied unchanged |
| CodepointCodec.PairReadBack | src/mojibake.c:163-171 | a surrogate pair and its tag read back as the pair followed by `=`, the pair, a space |
| CodepointCodec.SingleReadBack | src/mojibake.c:159-161 | any other unit and its tag read back as its echo |
| CodepointCodec.EchoScalar | src/mojibake.c:173 | a unit that is a code point of its own echoes as itself, `=`, itself, a space |
| CodepointCodec.HexToUnicodeAfterUnicodeToHex | src/mojibake.c:155-182 | converting characters to tags and back gives each character followed by `=`, the character again and a space (a lone surrogate keeps its tag) |
| CodepointCodec.AddCharToBuffer | src/mojibake.c:93-101 | a unit is written at the position only while room remains; position plus room is constant |
| CodepointCodec.Emit | src/mojibake.c:141 | appending a unit keeps the buffer equal to the clipped output so far |
| CodepointCodec.HexToUnicodeIteration | src/mojibake.c:117-142 | one loop iteration advances the source by the consumed units and appends the emitted units, clipped |
| CodepointCodec.TranslateHexToUnicode | src/mojibake.c:113-144 | the buffer holds the first `output_cch` units of the hex-to-Unicode translation, then a NUL |
| CodepointCodec.FormatTag | src/mojibake.c:173-178 | `snwprintf` appends `=U+`, the hex digits and a space, and the position advances by their number |
| CodepointCodec.UnicodeToHexIteration | src/mojibake.c:159-180 | one loop iteration appends the unit(s) of one character and its tag |
| CodepointCodec.TranslateUnicodeToHex | src/mojibake.c:155-182 | with the buffer sized by `OutputSizeForUnicodeToHex`, the buffer holds the whole Unicode-to-hex translation, then a NUL |
| LayoutDetector.Score | src/mojibake.c:268-277 | a score is at most the text length; it is 0 exactly when the layout maps no character, and the full length exactly when it maps all |
| LayoutDetector.MatchStringToLayout | src/mojibake.c:269-277 | the accumulator loop computes the score |
| LayoutDetector.MaxScore | src/mojibake.c:286-294 | no layout scores above the maximum, which is at most the text length |
| LayoutDetector.LastWithScore | src/mojibake.c:289-293 | the last layout with a given score, none after it has it |
| LayoutDetector.PickScore | src/mojibake.c:286-294 | the loop ends with the best score, earned by the layout it keeps |
| LayoutDetector.PickPreferred | src/mojibake.c:289 | when the preferred layout attains a nonzero maximum, it is kept |
| LayoutDetector.PickLast | src/mojibake.c:289-293 | otherwise the last layout tied at the maximum is kept |
| LayoutDetector.DetectStringLayout | src/mojibake.c:280-297 | the loop returns what `Detect` specifies |
| LayoutDetector.DetectChoosesBest | src/mojibake.c:280-297 | the result is NULL exactly when the maximum is 0; otherwise it is a listed layout with the maximum score; it is the preferred layout when that one is among the best, and otherwise the last tied layout |
| LayoutDetector.DetectNothing | src/mojibake.c:296 | an empty text or an empty layout list detects NULL |
| SpecialHandlingRules.BaseStart | mojibake.c:61-63 | the file name starts just after the last `/` or `\` past the first character, or at 0 when there is none |
| SpecialHandlingRules.FindBaseName | mojibake.c:61-63 | the backward scan finds where the file name starts |
| SpecialHandlingRules.BaseStartIsLastSeparator | mojibake.c:62-63 | any index right after the last separator is where the file name starts |
| SpecialHandlingRules.ToLower | mojibake.c:69 | `stricmp` lower-cases ASCII capitals and leaves every other character alone |
| SpecialHandlingRules.TableLookup | mojibake.c:67-71 | the first table entry whose name equals the file name ignoring case; none when no entry does |
| SpecialHandlingRules.TableLookupFirst | mojibake.c:67-71 | the first matching entry is the one looked up |
| SpecialHandlingRules.GetWindowSpecialHandling | mojibake.c:48-83 | the scan, the table loop and the class test decide what `Classify` specifies |
| SpecialHandlingRules.ClassifyRules | mojibake.c:41-83 | putty.exe and kitty.exe are ignored; mintty.exe, or a console window whose name is not in the table, gets Ctrl+Insert handling; anything else, or an unreadable process, gets none |
| SpecialHandlingRules.PuttyIsIgnored | mojibake.c:43 | a PuTTY window is ignored whatever its directory and the case of its file name |
| KeyChord.Keypress | mojibake.c:247-259 | the record carries the key and key-up for a release; only `VK_INSERT` is marked extended |
| KeyChord.AddKeypress | mojibake.c:247-259 | an index out of range returns -1 and writes nothing; otherwise the record is written at the index and the next index is returned |
| KeyChord.HeldModifiers | mojibake.c:267-274 | at most the listed modifiers are released |
| KeyChord.HeldModifiersMembers | mojibake.c:267-274 | exactly the listed modifiers that are held are released |
| KeyChord.NothingHeld | mojibake.c:267-274 | with nothing held, nothing is released or restored |
| KeyChord.Presses | mojibake.c:283-286 | one press or release record per key, in order |
| KeyChord.ChordFitsBuffer | mojibake.c:263 | the sequence has 2·held+4 records, at most 20, so it fits the 32-record buffer |
| KeyChord.ReleaseHeldModifiers | mojibake.c:266-274 | the first loop writes a release of each held modifier in list order and counts them |
| KeyChord.Append | mojibake.c:277-280 | one record goes at the end of the filled part |
| KeyChord.BuildChord | mojibake.c:263-286 | the buffer holds the releases, modifier down, key down, key up, modifier up, then the presses restoring the released keys |
| KeyChord.RestoreHeldModifiers | mojibake.c:283-286 | the last loop presses again the released modifiers, in the same order |
| KeyChord.SendKeyChord | mojibake.c:261-289 | the whole sequence is handed to `SendInput`, whose result is returned |
| KeyChord.ChordFor | mojibake.c:291-311 | Ignore has no chord; Ctrl+Insert handling copies with Ctrl+Insert and pastes with Shift+Insert; the default copies with Ctrl+C and pastes with Ctrl+V |
| KeyChord.SimulateKeyboardChord | mojibake.c:291-311 | an ignored application sends nothing and fails; otherwise the chord's sequence is sent |
| KeyChord.PlainCopyChord | mojibake.c:297 | Ctrl+C with nothing held is Ctrl down, C down, C up, Ctrl up |
| Transliteration.CharPiece | src/mojibake.c:230-231 | every character contributes at least one unit |
| Transliteration.Transliterate | src/mojibake.c:224-234 | retyping never shortens the text |
| Transliteration.UntypeableTextUnchanged | src/mojibake.c:230-231 | text the source layout cannot type comes back unchanged |
| Transliteration.DoubleBufferSuffices | mojibake.c:127 | when every character retypes into at most two units, the doubled buffer holds the whole translation |
| Transliteration.WriteUnits | src/mojibake.c:209-216 | `ToUnicodeEx` writes at most the remaining room |
| Transliteration.TranslateChar | src/mojibake.c:198-221 | writes the retyped units as far as room allows; returns 0 exactly when there is no retyping or no room |
| Transliteration.TranslateOne | src/mojibake.c:230-231 | one character appends its retyping, or itself when none, clipped to the room |
| Transliteration.TranslateOneEarly | mojibake.c:138-143 | the same for the earlier loop, which copies the character only while room remains |
| Transliteration.TranslateBuffer | src/mojibake.c:224-234 | the buffer holds the clipped retyping of the whole text, then a NUL |
| Transliteration.TranslateString | src/mojibake.c:236-266 | an allocation failure returns nothing; otherwise the result is the hex codec for the two HEX targets and the retyping for any other |
| Transliteration.TranslateStringEarly | mojibake.c:124-151 | an allocation failure returns nothing; otherwise the retyping clipped to twice the source length |
| Transliteration.ClipboardOutcome | src/mojibake.c:332-360 | success exactly when the clipboard opens, holds text, source and target differ, and allocation, emptying and setting all succeed; the clipboard is then replaced by the translation; it is left emptied exactly when only the final set fails |
| Transliteration.TranslateClipboard | src/mojibake.c:300-361 | the current revision returns what `ClipboardResult` specifies |
| Transliteration.TranslateClipboardEarly | mojibake.c:185-243 | the earlier revision returns what `ClipboardResultEarly` specifies |
| Transliteration.HexModesSkipDetection | src/mojibake.c:327-329 | for the two HEX targets the outcome does not depend on the layouts or the keyboard |
| Transliteration.SameLayoutIsNoop | src/mojibake.c:332-336 | when the text already looks typed in the target layout, the call fails and the clipboard is untouched (in both revisions) |
| Transliteration.ReplacedWithTranslation | src/mojibake.c:338-354 | a successful call replaces the clipboard with the translation from the detected source layout, which differs from the target |
| Transliteration.UnicodeToHexClipboardExample | src/mojibake.c:327-354 | converting a clipboard holding "@" to hex leaves "@=U+40 " in it |
| MojibakeEngine.Step | src/mojibake.c:433-513 | `WM_COPY` is posted exactly when a request leaves idle; a waiting state is entered only that way; the clipboard is translated only while waiting; the paste is delayed exactly after a successful translation; the wait for `WM_COPY` ends only by that translation or the copy chord; the paste chord is sent exactly when the delay ends |
| MojibakeEngine.PastesFollowTranslations | src/mojibake.c:458-486 | over any run of events, paste chords never outnumber successful translations (plus one paste already pending) |
| MojibakeEngine.TranslationsFollowRequests | src/mojibake.c:476-513 | over any run, successful translations never outnumber `WM_COPY` requests (plus one request already waiting) |
| MojibakeEngine.CopyChordOncePerRequest | src/mojibake.c:438-512 | over any run, keyboard copies never outnumber `WM_COPY` requests (plus one already waiting for `WM_COPY`) |
| MojibakeEngine.AtMostOncePerRequest | src/mojibake.c:433-513 | from an idle engine, every request is copied by keyboard at most once, translated at most once and pasted at most once, and each paste follows a translation |
| MojibakeEngine.StepsKeepTimerAlive | src/mojibake.c:505-510 | every step keeps the timer set while the engine is busy |
| MojibakeEngine.LateTicksEndRequest | src/mojibake.c:433-472 | two ticks at least 300 ms apart return any state to idle |
| MojibakeEngine.Engine.constructor | src/mojibake.c:33-38 | the engine starts idle with no timer |
| MojibakeEngine.Engine.IsBusy | src/mojibake.c:490-493 | busy exactly when not idle |
| MojibakeEngine.Engine.TranslateSelection | src/mojibake.c:496-513 | the globals and the posted `WM_COPY` are what `SelectionStep` specifies |
| MojibakeEngine.Engine.OnClipboardUpdate | src/mojibake.c:476-486 | idle or delaying: nothing changes and the clipboard is untouched; waiting: the clipboard is translated (by the revision's rules) and the globals follow `ClipboardStep` |
| MojibakeEngine.Engine.Timer | src/mojibake.c:433-472 | the globals and the keys sent are what `TimerStep` specifies |
| Docopt.LongOptLength | docopt.c:20-24 | the long name is the run before `=`, space or tab; it is 0 when a newline or the end of text comes first |
| Docopt.EntryAt | docopt.c:29-36 | the option character follows `\n-`; a long name exists only after ` --`; the option has a value exactly when the name is followed by `=`, and the default is the text after it |
| Docopt.EntryPositions | docopt.c:29-31 | every visited position starts a `\n-` |
| Docopt.EntryPositionsComplete | docopt.c:29-31 | exactly the `\n-` at or after the start are visited |
| Docopt.EntryPositionVisited | docopt.c:29-31 | a `\n-` past the start is visited |
| Docopt.EntryPositionsStep | docopt.c:29-31 | the scan is the next `\n-`, then the scan after it |
| Docopt.EntryPositionsIncreasing | docopt.c:29-31 | option lines are visited in order |
| Docopt.SplitLong | docopt.c:64-68 | `--name=value` splits at the first `=`; without `=` the whole key is the name |
| Docopt.MatchArgument | docopt.c:53-81 | an argument without `-` is an error; a match has a value exactly when the option takes one; `--name[=v]` matches on the exact name; `-x[v]` matches on the option character, with the rest as the value |
| Docopt.LongAndShortFormsAgree | docopt.c:53-81 | `--name=v` and `-xv` (or `--name` and `-x`) give the same match |
| Docopt.LineEnd | docopt.c:117-118 | the line ends at its newline or at the end of the text |
| Docopt.WordInMeans | docopt.c:121-129 | the inner loop's test holds exactly when the keyword occurs, space-delimited, at some position of the line |
| Docopt.SearchLines | docopt.c:113-130 | a found line starts at least a prefix length past the search start, within the text |
| Docopt.FindLine | docopt.c:109-133 | a found line start lies after the prefix, within the text |
| Docopt.SearchLinesFound | docopt.c:113-130 | the line returned starts just after the prefix and passes the test |
| Docopt.FindLineFound | docopt.h:34-42 | the line returned starts just after the prefix and holds the keyword |
| Docopt.SearchLinesSkip | docopt.c:119-130 | a line that fails the test is passed over |
| Docopt.SearchLinesIsFirst | docopt.c:113-130 | no earlier line starting with the prefix passes the test |
| Docopt.FindLineIsFirst | docopt.h:34-42 | no earlier prefixed line holds the keyword |
| Docopt.FindLineFirstHolding | docopt.h:34-42 | the line returned holds the keyword and is the first prefixed line to do so |
| Docopt.FindLineNone | docopt.h:34-42 | NULL exactly when no prefixed line holds the keyword |
| Docopt.EmptyKeywordMatchesAdjacentSpaces | docopt.c:119-127 | an empty keyword "occurs" in a line exactly where two white-space characters are adjacent |
| Docopt.ScanLine | docopt.c:121-129 | the inner loop finds the keyword exactly when the line holds it |
| Docopt.NextLine | docopt.c:113-130 | one outer round either ends with the result or moves forward without changing it |
| Docopt.FindLineWithWord | docopt.c:109-133 | the loop returns what `FindLine` specifies |
| DocoptParse.DefaultsCallback | docopt.c:46-51 | an option without a value is skipped; a default result is 0 or 1 |
| DocoptParse.ArgumentCallback | docopt.c:53-87 | 0 exactly for no match; `DOCOPT_MATCH` only when the setter accepted the matched value; otherwise `DOCOPT_ERROR` |
| DocoptParse.EntriesAt | docopt.c:29-38 | one entry per visited position |
| DocoptParse.EntriesAtMeans | docopt.c:29-38 | the i-th entry is the option line at the i-th position |
| DocoptParse.EntriesFromStep | docopt.c:29-38 | the lines from a position are none without a further `\n-`, else that line then the rest |
| DocoptParse.FirstMatch | docopt.c:37-39 | the first option line the argument matches at all |
| DocoptParse.IterateTakesFirstMatch | docopt.c:26-42 | an argument is decided by the first option line it matches; with none the result is 0 and nothing changes |
| DocoptParse.ArgumentTaken | docopt.c:26-42 | `DOCOPT_MATCH` exactly when the first matching line matches fully and the setter accepts; 0 exactly when no line matches |
| DocoptParse.DefaultsAllOrFail | docopt.c:44-51 | the defaults pass returns 0 or 1; a help text without values changes nothing |
| DocoptParse.DefaultsApplied | docopt.c:93 | the defaults pass succeeds exactly when every default is accepted in turn, leaving their combined effect |
| DocoptParse.SetDefaultsCallback | docopt.c:46-51 | the options change as `DefaultsCallback` specifies |
| DocoptParse.ParseArgumentCallback | docopt.c:53-87 | the options change as `ArgumentCallback` specifies |
| DocoptParse.RunCallbackOn | docopt.c:37-38 | the chosen callback runs on one option line |
| DocoptParse.IterateCons | docopt.c:37-39 | a nonzero callback result stops the iteration |
| DocoptParse.IterateFromStep | docopt.c:29-40 | one round: no `\n-` ends with 0; otherwise the callback on the next line, stopping when nonzero |
| DocoptParse.IterStep | docopt.c:29-40 | one loop round keeps the result of the iteration |
| DocoptParse.IterDocOpt | docopt.c:26-42 | the loop returns and leaves what `Iterate` over every option line specifies |
| DocoptParse.ArgsRunReportsNothing | docopt.c:94-106 | no argument is reported exactly when every argument succeeded |
| DocoptParse.ArgsRunReportsFirstFailure | docopt.c:100-104 | the reported argument is the first that failed |
| DocoptParse.ParseCommandLineRules | docopt.h:25-31 | a rejected default fails with nothing reported; after the defaults, parsing succeeds exactly when every argument succeeds |
| DocoptParse.DocOptParseCommandLine | docopt.c:89-107 | the loop returns, reports and leaves what `ParseCommandLine` specifies |
| KbswEarly.CodeVk | kbsw.c:75-81 | the key of the first code that starts the line; 0 exactly when none does |
| KbswEarly.LineKeyMeans | kbsw.c:58-82 | a recognised name yields a key of the table, from the first key line holding the name, with no earlier key line holding it (the same search serves `src/kbsw.c:119-146`) |
| KbswEarly.KeyNameVkMeans | kbsw.c:58-82 | a name recognised in the earlier usage text yields one of the eight modifier keys |
| KbswEarly.ParseKeyName | kbsw.c:58-82 | the search and the table loop return what `KeyNameVk` specifies |
| KbswEarly.LookupCode | kbsw.c:75-81 | the table loop returns what `CodeVk` specifies |
| KbswEarly.ParseSwitchArg | kbsw.c:105-115 | the parse returns what `SwitchArg` specifies |
| KbswEarly.SlotFor | kbsw.c:86-97 | the first slot holding the key or empty; all slots before it are used by other keys |
| KbswEarly.SlotForIs | kbsw.c:86-97 | that slot is determined by those properties |
| KbswEarly.AddSwitch | kbsw.c:84-99 | the table keeps its size |
| KbswEarly.AddSwitchRules | kbsw.c:84-99 | on a packed table, adding fails exactly for a duplicate key or a full table and then changes nothing; otherwise the first empty slot gets key and id, nothing else changes, and the table stays packed |
| KbswEarly.LayoutValue | kbsw.c:113-115 | an accepted layout is at most 2^32-1 |
| KbswEarly.SwitchArg | kbsw.c:101-115 | an accepted argument names a recognised key |
| KbswEarly.NonOptionArg | kbsw.c:101-118 | a rejected argument leaves the table alone |
| KbswEarly.NoEqualsRejected | kbsw.c:105-106 | an argument without `=` is rejected |
| KbswEarly.NonOptionArgAccepted | kbsw.c:101-117 | an accepted argument splits at its first `=`, within 23 characters, into a recognised key and a value `strtoul` consumes fully, and adds that switch |
| KbswEarly.TrailingJunkRejected | kbsw.c:113-115 | a value with junk after its hex digits is rejected |
| KbswEarly.EmptyLayoutValueAccepted | kbsw.c:113-117 | `KEY=` is accepted with layout 0 |
| KbswEarly.SetOption | kbsw.c:120-140 | the command never falls; `h` always gives Help; an unknown option fails and changes nothing; only opt 0 touches the table; only `t` sets the timeout, to `atoi` of the value modulo 2^32 |
| KbswEarly.Options.constructor | kbsw.c:306 | the options start with empty slots, timeout 0 and Run |
| KbswEarly.Options.AddLayoutSwitch | kbsw.c:84-99 | the slot loop does what `AddSwitch` specifies |
| KbswEarly.Options.ParseNonOptionArg | kbsw.c:101-118 | the table changes as `NonOptionArg` specifies |
| KbswEarly.Options.AppDocOptSetOption | kbsw.c:120-140 | the options change as `SetOption` specifies |
| KbswEarly.StartupAction | kbsw.c:304-334 | a parse failure exits with an error unless help was asked; help shows the usage; the switcher starts exactly for a parsed Run |
| Kbsw.KeyNameVkMeans | src/kbsw.c:119-146 | a recognised name yields one of the eleven switch keys |
| Kbsw.ParseKeyName | src/kbsw.c:119-146 | the search on the first `keyname_len` characters and the table loop return what `KeyNameVk` specifies |
| Kbsw.KeySlot | src/kbsw.c:152-161 | the first slot holding the key or empty; all slots before it are used by other keys |
| Kbsw.KeySlotIs | src/kbsw.c:152-161 | that slot is determined by those properties |
| Kbsw.AddKeyRules | src/kbsw.c:149-164 | on a packed table, -1 exactly for a duplicate key or a full table, then nothing changes; otherwise the first empty index, where the key is written, nothing else changes, and the table stays packed |
| Kbsw.LeadingZeros | src/kbsw.c:187-188 | at most the whole value is skipped |
| Kbsw.Klid | src/kbsw.c:187-195 | a KLID has exactly 8 characters |
| Kbsw.KlidRules | src/kbsw.c:187-195 | after the leading zeros, 9 or more characters are refused; otherwise the KLID ends with them, padded on the left with `0` |
| Kbsw.KlidIgnoresLeadingZeros | src/kbsw.c:188 | a leading zero makes no difference |
| Kbsw.KlidIdempotent | src/kbsw.c:187-195 | normalising a KLID again changes nothing |
| Kbsw.NormaliseKlid | src/kbsw.c:187-195 | the skip loop and the padding build what `Klid` specifies |
| Kbsw.KeyNameLength | src/kbsw.c:170-171 | the key name ends at the first `=`, or at the end |
| Kbsw.NonOptionArg | src/kbsw.c:166-207 | both tables keep their size |
| Kbsw.NonOptionArgRules | src/kbsw.c:166-207 | a failure changes nothing; an unknown key fails; success exactly for a new key with room and a loadable or absent layout; the key then goes in the first empty slot and its layout (`HKL_AUTOASSIGN` without `=`) at the same index |
| Kbsw.KeyAloneIsAutoAssigned | src/kbsw.c:168-176 | a key given without `=` is left for automatic assignment |
| Kbsw.SetOption | src/kbsw.c:210-235 | the command never falls; `h` always gives Help; an unknown option fails and changes nothing; only opt 0 touches the tables; only `t` sets the timeout, to `atoi` of the value modulo 2^32; quiet is set exactly by `q`; ignore-fullscreen is cleared exactly by `F` |
| Kbsw.AssignFrom | src/kbsw.c:257-271 | the table keeps its size |
| Kbsw.AutoAssign | src/kbsw.c:252-274 | the table keeps its size |
| Kbsw.AssignFromOutcome | src/kbsw.c:257-271 | from any slot, the loop succeeds exactly when the installed list covers all automatic slots |
| Kbsw.AssignFromContents | src/kbsw.c:257-271 | from any slot, the loop keeps the slots before it and gives every later slot its assigned layout |
| Kbsw.AutoAssignRules | src/kbsw.c:252-274 | success exactly when there are at least as many installed layouts as automatic slots; then the k-th automatic slot gets the k-th installed layout and the other slots keep theirs |
| Kbsw.AutoAssignResolves | src/kbsw.c:252-274 | after a successful assignment from real layouts no automatic slot remains |
| Kbsw.NothingToAssign | src/kbsw.c:257-259 | a table with no automatic slot is left alone, whatever the list |
| Kbsw.LayoutFor | src/kbsw.c:176-199 | `HEX` is the hexadecimal dummy layout; any other value names a layout exactly when its KLID is well formed and loads, and then it is the loaded one; NULL never stands for a layout |
| Kbsw.ParseLayoutValue | src/kbsw.c:176-199 | `HEX` or a loaded KLID, as `LayoutFor` specifies |
| Kbsw.ParseSwitchArg | src/kbsw.c:170-199 | the key named before the first `=`, and for a known key its layout (`HKL_AUTOASSIGN` without `=`) |
| Kbsw.Options.constructor | src/kbsw.c:546-547 | the options start with Run, empty tables and ignore-fullscreen set |
| Kbsw.Options.AddLayoutSwitchKey | src/kbsw.c:149-164 | the slot loop does what `AddKey` specifies |
| Kbsw.Options.ParseNonOptionArg | src/kbsw.c:166-207 | both tables change as `NonOptionArg` specifies |
| Kbsw.Options.AddLayout | src/kbsw.c:202-206 | the key goes in; on success its layout goes at the same index; on failure the layouts are unchanged |
| Kbsw.Options.AppDocOptSetOption | src/kbsw.c:210-235 | the options change as `SetOption` specifies |
| Kbsw.Options.AutoAssignLayouts | src/kbsw.c:252-274 | the table and the result are what `AutoAssign` specifies; the installed list is fetched exactly when an automatic slot exists |
| Kbsw.HookNotify | src/kbsw.c:410-416 | an index past the table posts nothing; otherwise the slot's layout and the modifier flag are posted |
| Kbsw.Dispatch | src/kbsw.c:358-384 | nothing without a foreground window and thread, something always with them; HEX is never posted and any other layout always is, unchanged; the selection is converted for HEX or with a modifier, into the layout itself, and for HEX towards hex exactly with a modifier |
| Kbsw.OnActivateLayout | src/kbsw.c:455-462 | something is asked for exactly when the full-screen and busy gates are open and the window was found, and then it is what `Dispatch` specifies |
| Kbsw.ActivationTargets | src/kbsw.c:455-462 | from a double-tap of a slot: a busy engine, a running full-screen application (unless `-F`) or a missing foreground window drops it; a HEX slot converts towards hex with a modifier and towards Unicode without and posts nothing; any other slot posts its own layout and converts into it exactly with a modifier; from a resolved configuration the engine is never asked for the auto-assign marker or NULL, and only real layouts are posted |
| Kbsw.Decide | src/kbsw.c:548-591 | a parse failure is fatal unless help was asked for; a run needs a first key; any outcome but an error is the one the command asks for |
| Kbsw.DecideRules | src/kbsw.c:548-591 | the switcher starts exactly for a parsed Run with a first key once the layouts are assigned, and then no automatic slot remains; for a help request the usage is shown exactly when the layouts can be assigned; another parse failure exits with an error |

## Left out

- Threads, windows, message loops and hook installation (`HookStart`,
  `HookThread`, `HookShutdown`, `HookWindowProc`, `HookInstall`), and
  finding, stopping, pausing and querying a running copy: these are OS I/O
  with no logic to verify beyond the message they send.
- The newer hook (`src/kbswhook.c`) and its pause flag: that file is not part
  of this model. The detector is the top-level `kbswhook.c`.
- `monospacebox.c`, the layout listing and its display names, and
  `IsFullscreenAppRunning`: UI, registry reads and a foreign call. Whether a
  full-screen application runs is a parameter.
- Win32 calls are parameters. Each is modelled only by its effect on the
  program's logic:
  - `VkKeyScanExW` is reduced to whether a character maps.
  - `ToUnicodeEx` is a function from (character, source, target) to units.
    The modifier key state it is given is not modelled.
  - `MapVirtualKeyA` (scan codes) is not modelled.
  - The result of `LoadKeyboardLayoutA` is a function of the KLID; its side
    effect of loading the layout is not modelled.
  - `GetKeyboardLayoutList` is a list of at most 8 layouts.
  - `GetForegroundWindow` and `GetWindowThreadProcessId` are reduced to
    whether both succeeded (`found` in `Kbsw.Dispatch`). Which window gets
    the request (the focused child that `GetGUIThreadInfo` reports) is not
    modelled.
  - The clipboard calls are success flags and the text; the clipboard
    formats and memory handles are not modelled.
- Logging and the message boxes that report errors are left out.
- `CodepointCodec.TranslateUnicodeToHex`: proved only for a buffer the
  whole result fits in, as `OutputSizeForUnicodeToHex` guarantees. The
  `snwprintf` truncation on a smaller buffer is not modelled.
- `CodepointCodec.DigitsStart`: `wcstoul` is modelled on ASCII hex digits.
  This includes its `0x` prefix and its saturation at 2^32-1. Non-ASCII
  digits accepted by a wide `isxdigit`, and the embedded NUL that `U+0`
  produces, are not modelled; callers are assumed to pass text without an
  embedded NUL, so the end of the sequence stands for the terminator.
- `CLib.Atoi`: modelled without overflow. The value is stored modulo 2^32
  into the `unsigned` timeout. A missing value is read as empty text.
- `CLib.Strtoul16`: on overflow it saturates to 2^32-1 and does not
  set `errno`.
- `Docopt.FindLineWithWord`: requires a non-empty prefix. With an empty
  prefix the C loop never advances. Both callers pass a line-break prefix.
- `Kbsw.ParseKeyName`: `src/kbsw.c` calls a four-argument
  `DocOptFindLineWithWord` that is not part of this model. The keyword is
  taken to be the first `keyname_len` characters of the argument and
  searched with the three-argument algorithm of `docopt.c`.
- The `layouts` array of the earlier `kbsw.c` options is never used, and is
  left out.
- `DocoptParse.DocOptParseCommandLine`: the imperative driver runs on the
  options of the earlier `kbsw.c`. For `src/kbsw.c` the same parse is used
  through its option setter, in the function `Kbsw.Startup`.
- `PROG` is taken to be "kbsw" in both usage texts.
- `SwitchDetector.KeyboardHook.SwitchActivate`: `AppHookNotify` is returned
  as an `Activation` value instead of being called.

## Where the code differs from the documented behaviour

The model follows the code in each of these cases.

- An injected event, or a key that is not configured, resets the current
  switch to NONE. Only the count and the time stamp are left untouched.
- When layouts tie for the best score, the detector keeps the last tied
  layout, unless the preferred layout is already among the best.
- A key-down is timed from the previous key-down, also after an
  activation. So a fifth event (down@400 after the four-event double tap)
  makes count 5 instead of starting a new sequence.
- Automatic assignment hands out installed layouts in order, without
  skipping layouts already given explicitly to another key.
- When the layouts cannot be assigned automatically, `main` exits with
  status 1 even when help was requested.
- In the earlier `kbsw.c`, an empty key name (argument `=409`) is looked up
  as an empty keyword. An empty keyword matches the first key line with two
  adjacent white-space characters (`Docopt.EmptyKeywordMatchesAdjacentSpaces`),
  which is the LCtrl line.
