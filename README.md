# pyX11spy keystroke capture, modelled in Dafny

pyX11spy watches a remote X display. It repeatedly asks the server for the
32-byte keymap (one bit per keycode) and for the window holding the input
focus, and it prints a running transcript:

- the label of every key that goes down;
- with `--print_up`, the label of every key that comes up, in parentheses;
- a diagnostic for keycodes it has no label for;
- a banner whenever the focus moves to another window.

This project models the logic between those queries and the printed text.

- `get_bit` becomes `Keymap.GetBit`, proved against a bit-level reading of a
  keymap (`Keymap.Pressed`).
- `buildKeycodeDictionary` becomes two parts.
  - `KeyRegistry.Registry` is the fixed registry of 146 labelled keys, in
    insertion order.
  - `KeycodeTable.BuildKeycodeDictionary` resolves every label to a keycode
    through the two X calls, passed in as functions. It then inverts the
    result into the keycode-to-labels table, built by appending in registry
    order. The table is proved equal to a recursive specification
    (`KeycodeTable.Keychars`).
- One pass of the capture loop over the 256 keycodes is
  `Render.ScanKeymap`. It is proved to print exactly the rendering
  (`Render.RenderEdge`) of the changed bits (`Render.Edges`), in ascending
  keycode order.
- The focus tracker is `Focus`.
- `Capture.KeystrokeCapture` holds the loop's own variables: the remembered
  window, the remembered keymap and the output so far.
  - `Sample` is one iteration.
  - `Capture` runs the loop over a finite sequence of polls.
  - `Capture.CaptureKeystrokes` puts the pieces together.
- `Transcript` checks the promise of the header comment (pyX11spy.py:28-39). Named keys
  print in single brackets and the bracket keys themselves print doubled, so
  "there should be no confusion" about the keys struck.
  - For presses the promise holds. Registry labels form a prefix code, so any
    run of press tokens decodes back to the keys pressed.
  - With releases printed in parentheses it does not hold: two different
    scans can print the same text (`Transcript.ReleasesCanBeConfused`).

## Notes on the code

- **The colon is not registered.** The header comment (pyX11spy.py:28-29)
  reserves brackets for keys without a printable character, so a printable
  key is expected to print as itself. The punctuation block
  (pyX11spy.py:64-95) has no `:`, and `KeyRegistry.ColonNotRegistered`
  records that. A colon keystroke therefore prints the "unsupported"
  diagnostic, unless its keycode also carries another label.
- **Every label gets a keycode.** Line 162 stores whatever
  `keysym_to_keycode` returns, with no check for a symbol the server does not
  know. The model does the same: `KeycodeTable.Binding` always has a keycode.
- **Releases of the paren keys print `((()` and `()))`.** The header comment
  (pyX11spy.py:37-39) says the paren keys print as `((` and `))`. Line 207
  wraps the doubled label of line 72 or 73 in a further pair of parentheses,
  so releasing `((` prints the four characters `((()`.
- **Focus changes are always shown.** The help string of `--window_focus`
  (pyX11spy.py:256-262) offers the focus display as an option. The option is
  parsed but never read: the focus check at line 190 runs on every
  iteration. `--verbose` is parsed and never read either, as its help string
  says. The model has no switch for either option.

## Model

| member | source | states |
|---|---|---|
| Keymap.GetBit | pyX11spy.py:52-53 | the masked byte is non-zero exactly when bit `index % 8` of byte `index / 8` is one, and is then that bit's own mask |
| Keymap.GetBitsDiffer | pyX11spy.py:52-53 | two keymaps' `get_bit` values at an index differ exactly when that one bit differs |
| Numerals.ValueOfDigits | pyX11spy.py:209 | the decimal (and hexadecimal) digits printed for a number read back as that number |
| Numerals.Decimal | pyX11spy.py:209 | `str()` of a keycode: decimal digits, no leading zero unless the number is 0, reading back as the number |
| Numerals.Hex | pyX11spy.py:179-182 | `hex()` of a window id: `0x` then lower-case hexadecimal digits, no leading zero unless the id is 0, reading back as the id |
| KeyRegistry.Registry | pyX11spy.py:57-157 | the registry has 146 entries: the 62 alphanumerics, then the 32 punctuation keys, then the 52 named keys |
| KeyRegistry.AlphanumericsFacts | pyX11spy.py:60-61 | the 62 alphanumeric labels are distinct single letters or digits |
| KeyRegistry.PunctuationDistinct | pyX11spy.py:64-95 | the 32 punctuation labels are distinct |
| KeyRegistry.PunctuationPrintable | pyX11spy.py:64-95 | every punctuation label is one printable non-delimiter character or a doubled delimiter, and none is alphanumeric |
| KeyRegistry.ModifiersFacts | pyX11spy.py:98-109 | the 12 modifier and structural labels are distinct names in single brackets |
| KeyRegistry.FunctionKeysFacts | pyX11spy.py:112-123 | the labels `[F1]` to `[F12]` are distinct names in single brackets |
| KeyRegistry.ArrowsFacts | pyX11spy.py:126-129 | the 4 arrow labels are distinct names in single brackets |
| KeyRegistry.NavigationFacts | pyX11spy.py:132-137 | the 6 navigation labels are distinct names in single brackets |
| KeyRegistry.KeyPadDistinct | pyX11spy.py:140-157 | the 18 keypad labels are distinct |
| KeyRegistry.KeyPadNamed | pyX11spy.py:140-157 | every keypad label is a name in single brackets |
| KeyRegistry.ModifiersApart | pyX11spy.py:98-157 | no modifier label is reused by a function, arrow, navigation or keypad key |
| KeyRegistry.FunctionKeysApart | pyX11spy.py:112-157 | no function-key label is reused by an arrow, navigation or keypad key |
| KeyRegistry.CursorKeysApart | pyX11spy.py:126-157 | arrow, navigation and keypad labels are pairwise apart |
| KeyRegistry.NamedKeysFacts | pyX11spy.py:98-157 | the 52 named labels are distinct names in single brackets |
| KeyRegistry.PrintableKeysFacts | pyX11spy.py:60-95 | the first 94 labels are distinct printable labels |
| KeyRegistry.RegistryDistinct | pyX11spy.py:57-157 | no two registry entries share a label, so the dictionary keeps all 146 |
| KeyRegistry.RegistryLabelKinds | pyX11spy.py:57-157 | entries 0-93 have printable labels and entries 94-145 have named ones |
| KeyRegistry.KindsNeverConfused | pyX11spy.py:57-157 | for any list whose first labels are printable and the rest named: no label is a single delimiter, every named label is `[` + name + `]` with a name not starting with `[`, and printable and named labels never coincide |
| KeyRegistry.LabelsNeverConfused | pyX11spy.py:72-88 | brackets and parens are registered only doubled; every named label is `[` + name + `]` with a name not starting with `[`; no named label is `[[` or `]]`; no printable label equals a named one |
| KeyRegistry.DelimitersDoubled | pyX11spy.py:72-88 | the registry binds `((`, `))`, `[[` and `]]` to the symbols parenleft, parenright, bracketleft and bracketright |
| KeyRegistry.ColonNotRegistered | pyX11spy.py:64-95 | no registry label is `:` |
| KeycodeTable.BuildKeycodeDictionary | pyX11spy.py:55-169 | the keycode dictionary has exactly the registry's labels as keys, each mapped to the keycode its symbol resolves to, and the inverse table is the registry's bindings grouped by keycode in registry order |
| KeycodeTable.ResolveEntries | pyX11spy.py:159-169 | for any list of entries with distinct labels, the keysym assignments of lines 60-157, written as one loop, and the two loops of lines 159-169 build that dictionary and that inverse table |
| KeycodeTable.ResolveKeysyms | pyX11spy.py:57-157 | the keysym dictionary has exactly the entries' labels as keys, each mapped to the keysym of its symbol |
| KeycodeTable.ResolveKeycodes | pyX11spy.py:159-162 | the keycode dictionary has the same keys, each mapped to the keycode of its keysym |
| KeycodeTable.InvertKeycodes | pyX11spy.py:164-167 | walking the labels in insertion order and appending each to its keycode's list yields the bindings grouped by keycode, each list in insertion order |
| KeycodeTable.KeycharsAppend | pyX11spy.py:165-167 | appending one label extends exactly the list of its own keycode, starting from an empty list for a new keycode |
| KeycodeTable.LabelsAtMembers | pyX11spy.py:165-167 | a label is listed under a keycode exactly when some binding pairs the label with that keycode |
| KeycodeTable.LabelListedOnce | pyX11spy.py:165-167 | with distinct labels, each label is listed exactly once, under its own keycode and under no other |
| KeycodeTable.RegistryLabelListedOnce | pyX11spy.py:159-167 | every registry label occurs exactly once in the table, under the keycode its symbol resolved to, and under no other keycode |
| KeycodeTable.ListedInRegistryOrder | pyX11spy.py:165-167 | of two labels sharing a keycode, the one registered first comes first in that keycode's list |
| KeycodeTable.EarliestLabelRendered | pyX11spy.py:165-167 | the first label in a keycode's list is the earliest binding that resolved to it |
| KeycodeTable.SharedKeyShowsEarlier | pyX11spy.py:165-167 | when two entries resolve to one keycode, the later one is never the rendered label |
| KeycodeTable.LetterCases | pyX11spy.py:60-61 | registry positions 10 + k and 36 + k hold the lower- and upper-case forms of the k-th letter |
| KeycodeTable.LowerCaseShadowsUpperCase | pyX11spy.py:60-61 | when a letter's two cases share a keycode, the capital is never the label the transcript shows for that key |
| KeycodeTable.LowerCaseShown | pyX11spy.py:165-167 | when no digit or earlier letter resolved to the keycode of a lower-case letter, that letter is the label the transcript shows for the key |
| Render.ScanKeymap | pyX11spy.py:201-209 | the 256-step loop prints exactly the rendering of the edges between the two keymaps, in ascending keycode order |
| Render.ScanIndex | pyX11spy.py:202-209 | one keycode prints nothing when its bit is unchanged, and otherwise exactly the rendering of its edge |
| Render.RenderEdge | pyX11spy.py:204-209 | one changed keycode prints one line, or nothing exactly when it is a release and releases are not reported; a press prints `keychars[k][0]`, a reported release prints it in parentheses, and a keycode with no label prints the diagnostic |
| Render.Unsupported | pyX11spy.py:209 | the diagnostic is `[-] Key code `, decimal digits, then ` currently unsupported.` and a newline |
| Render.PrintedBelowRendersEdges | pyX11spy.py:201-209 | what the loop has printed after the first n keycodes is the rendering of the edges among them, in ascending order |
| Render.EdgesAreChanges | pyX11spy.py:201-204 | an edge is listed exactly when its bit changed, carrying the key's new state, and the edges are in strictly ascending keycode order |
| Render.IdenticalKeymapsSilent | pyX11spy.py:201-203 | two identical keymaps have no edges, so the pass prints nothing |
| Render.SingleChangeOneEdge | pyX11spy.py:201-203 | keymaps that differ in one keycode have exactly one edge, at that keycode |
| Render.SingleChangeOutput | pyX11spy.py:202-209 | for a single changed key: a press prints `keychars[k][0]`; a release prints it in parentheses when releases are reported and nothing otherwise; a key with no label that would print gives exactly the diagnostic line |
| Render.UnsupportedNamesKeycode | pyX11spy.py:208-209 | the number after `[-] Key code ` in the diagnostic reads back as the keycode |
| Render.TokensComeFromEdges | pyX11spy.py:202-209 | every printed line is the whole rendering of one edge that is a press, or a release while releases are reported; so an unreported release never prints the diagnostic |
| Transcript.Decode | pyX11spy.py:28-33 | splitting a transcript into tokens loses nothing: the tokens joined give the transcript back |
| Transcript.TokenLengthOfLabel | pyX11spy.py:28-33 | a printable, doubled or named label at the head of any text is read as exactly that label |
| Transcript.DecodeJoined | pyX11spy.py:28-33 | a run of labels printed back to back decodes to the same labels |
| Transcript.PressesNeverConfused | pyX11spy.py:28-33 | two sequences of registry labels print the same text exactly when they are the same sequence |
| Transcript.ReleasesCanBeConfused | pyX11spy.py:34-39 | with releases printed, pressing `((` while releasing `))` prints the same text as releasing `((` while pressing `))` |
| Focus.FocusOutput | pyX11spy.py:190-195 | a `\n\n` banner for the focused window is printed exactly when the focused id differs from the remembered one, and nothing otherwise |
| Focus.FocusNext | pyX11spy.py:190-197 | the remembered window afterwards has the focused id, and is replaced only when the id changed |
| Focus.FocusSettles | pyX11spy.py:190-197 | querying again while the same window keeps the focus prints nothing and changes nothing |
| Focus.Banner | pyX11spy.py:179-182 | a banner is its leading newlines, then `[0x`, and ends with `]` and a newline |
| Focus.BannerNamesWindow | pyX11spy.py:179-182 | the hexadecimal number after `[0x` in a banner reads back as the window id |
| Focus.BannerShowsCaption | pyX11spy.py:179-182 | between the id and the closing `]` a banner shows the title, or `No Window Title` when there is none |
| Capture.KeystrokeCapture.constructor | pyX11spy.py:172-182 | the loop starts with the `[+] Beginning collect on` line and the initial banner, remembers the initial focus, and no key held |
| Capture.Opening | pyX11spy.py:178-182 | the first line is `[+] Beginning collect on ` followed by the display name; the second is the focus banner after one newline, naming the focused window by id and showing its title |
| Capture.KeystrokeCapture.Sample | pyX11spy.py:190-210 | one iteration appends the focus banner (if any) and the pass's tokens, and remembers the new focus (on a change) and the new keymap |
| Capture.KeystrokeCapture.Capture | pyX11spy.py:187-210 | the loop over a sequence of polls appends the run's output and ends in the run's final state |
| Capture.CaptureKeystrokes | pyX11spy.py:171-210 | the whole transcript is the opening lines followed by the run from the initial focus and no key held, using the table built from the registry |
| Capture.AfterRemembersLast | pyX11spy.py:190-210 | after a run the loop remembers the last keymap queried and the last focused id |
| Capture.RunQuiet | pyX11spy.py:190-210 | samples that repeat the remembered keymap with the same focused id print nothing |
| Capture.HeldKeyPressedOnce | pyX11spy.py:176-210 | a key pressed at one sample and held through the following ones, with no other key changing and the focus staying put, prints its label once and nothing more |
| Capture.RunIsIterations | pyX11spy.py:187-210 | a run prints what its iterations print, one after another |
| Capture.IterationAt | pyX11spy.py:187-210 | iteration i compares poll i's keymap with the keymap of poll i - 1 (the remembered one for the first), under the window remembered after the earlier polls |
| Capture.LaterIterations | pyX11spy.py:190-210 | every iteration after the first prints the focus banner, if any, then the renderings of the edges between the previous poll's keymap and its own |
| Capture.BannerWhenFocusMoves | pyX11spy.py:190-197 | from the second iteration on, a focus banner is printed exactly when the focused id differs from the previous poll's, and the keys' output follows it |
| Capture.HeldKeyReportedOnce | pyX11spy.py:176-210 | for a key held at every poll, whatever the other keys and the focus do: no iteration after the first has an edge at that key, and if the key was up before the run the first iteration reports its press |
| Capture.FirstIterationBanner | pyX11spy.py:174-197 | the first iteration prints a change banner only if the focus left the window announced at start |
| Capture.ScanPrintsLabelsOrDiagnostics | pyX11spy.py:202-209 | with releases not reported and the registry's table, every printed line is a registry label or the diagnostic |
| Capture.ScanPrintsEntryLabels | pyX11spy.py:202-209 | for a table built from any entries, with releases not reported, every printed line is one of those entries' labels or the diagnostic |
| Capture.TypingOneKey | pyX11spy.py:200-210 | with releases reported, pressing and then releasing any keycode that has a label prints the label and then the label in parentheses, and nothing else |
| Capture.TypingA | pyX11spy.py:200-210 | the key labelled `a` on keycode 38 prints `a` and then `(a)` |
| Capture.HoldingOneKey | pyX11spy.py:200-210 | an idle sample, two samples with a labelled key down and an idle sample print the label once and its release once |
| Capture.HoldingA | pyX11spy.py:200-210 | the samples idle, keycode 38 down, keycode 38 down, idle print `a` and then `(a)` |

## Left out

- The X protocol is not modelled: connecting, `query_keymap`, `get_input_focus`,
  `get_wm_name`, `get_display_name` and `sync`. Their answers are inputs
  (`Capture.Poll`, the display name). `XK.string_to_keysym` and
  `keysym_to_keycode` are arbitrary total functions passed as parameters.
- Window titles: `get_wm_name` may return `None` or an empty string. Both are
  falsy to the code, so the model uses one `title` string, with `""` for
  "no title".
- Timing and flushing are not modelled: `time.time`, `time.sleep`,
  `sys.stdout.flush` and the `flush_delay` comparison (pyX11spy.py:175, 196,
  212-218). They do not change what is printed, only when it reaches the
  terminal.
- The `while True` loop is modelled over a finite sequence of polls. Nothing
  is said about a run that never ends.
- `main` and the argument parsing are not modelled (pyX11spy.py:222 onward).
- Reading `keychars[index]` for a missing keycode inserts an empty list into
  the `defaultdict`. The model reads through `Render.Lookup` and leaves the
  table unchanged. Printing is the same either way.
- The bare `except` (pyX11spy.py:208) would also catch errors other than the
  `IndexError` of an empty label list, such as a broken pipe on `print`. Only
  the empty list is modelled.
- Transcript.PressesNeverConfused: covers press tokens only. The diagnostic
  lines and focus banners that can come between them are not part of the
  decoded text.
