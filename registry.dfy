/**
 * The fixed registry of monitored keys that buildKeycodeDictionary fills in
 * (pyX11spy.py:57-157), in its insertion order: each entry pairs the label the
 * transcript prints with the X keysym name the label is resolved through.
 *
 * Printable keys print as themselves, except the bracket and parenthesis keys,
 * which are registered under doubled labels; every other key prints as its
 * name inside single brackets.  The lemmas at the end prove the promise of
 * the header comment (pyX11spy.py:28-33) that the two kinds of label can
 * never be confused.
 */
module KeyRegistry {

  /** A monitored key: the text printed for it and the keysym name it resolves through. */
  datatype KeyEntry = KeyEntry(display: string, symbol: string)

  /** `n` consecutive ASCII characters starting at `first`. */
  function AsciiRun(first: char, n: nat): (s: string)
    requires first as int + n <= 128
    ensures |s| == n
    ensures forall i :: 0 <= i < n ==> s[i] as int == first as int + i
  {
    seq(n, i requires 0 <= i < n => (first as int + i) as char)
  }

  /** Python's string.printable[0:62]: digits, then lower-case, then upper-case letters. */
  function PrintableAlphanumerics(): string
  {
    AsciiRun('0', 10) + AsciiRun('a', 26) + AsciiRun('A', 26)
  }

  /** Letters and digits: the characters `string.printable` starts with. */
  predicate IsAlphanumeric(c: char)
  {
    '0' <= c <= '9' || 'a' <= c <= 'z' || 'A' <= c <= 'Z'
  }

  /** The 62 alphanumeric keys, each its own label and keysym name (lines 60-61). */
  function Alphanumerics(): seq<KeyEntry>
  {
    var p := PrintableAlphanumerics();
    seq(|p|, i requires 0 <= i < |p| => KeyEntry([p[i]], [p[i]]))
  }

  /** The 32 punctuation keys, the brackets and parentheses doubled (lines 64-95). */
  function Punctuation(): seq<KeyEntry>
  {
    [ KeyEntry(" ", "space"), KeyEntry("!", "exclam"), KeyEntry("\"", "quotedbl"),
      KeyEntry("#", "numbersign"), KeyEntry("$", "dollar"), KeyEntry("%", "percent"),
      KeyEntry("&", "ampersand"), KeyEntry("'", "apostrophe"), KeyEntry("((", "parenleft"),
      KeyEntry("))", "parenright"), KeyEntry("*", "asterisk"), KeyEntry("+", "plus"),
      KeyEntry(",", "comma"), KeyEntry("-", "minus"), KeyEntry(".", "period"),
      KeyEntry("/", "slash"), KeyEntry(";", "semicolon"), KeyEntry("<", "less"),
      KeyEntry("=", "equal"), KeyEntry(">", "greater"), KeyEntry("?", "question"),
      KeyEntry("@", "at"), KeyEntry("[[", "bracketleft"), KeyEntry("\\", "backslash"),
      KeyEntry("]]", "bracketright"), KeyEntry("^", "asciicircum"), KeyEntry("_", "underscore"),
      KeyEntry("`", "grave"), KeyEntry("{", "braceleft"), KeyEntry("|", "bar"),
      KeyEntry("}", "braceright"), KeyEntry("~", "asciitilde") ]
  }

  /** Modifier and structural keys (lines 98-109). */
  function Modifiers(): seq<KeyEntry>
  {
    [ KeyEntry("[Control_L]", "Control_L"), KeyEntry("[Control_R]", "Control_R"),
      KeyEntry("[Alt_L]", "Alt_L"), KeyEntry("[Alt_R]", "Alt_R"),
      KeyEntry("[Shift_L]", "Shift_L"), KeyEntry("[Shift_R]", "Shift_R"),
      KeyEntry("[Caps_Lock]", "Caps_Lock"), KeyEntry("[Tab]", "Tab"),
      KeyEntry("[Escape]", "Escape"), KeyEntry("[Backspace]", "BackSpace"),
      KeyEntry("[LineFeed]", "Linefeed"), KeyEntry("[Return]", "Return") ]
  }

  /** F1 to F12 (lines 112-123). */
  function FunctionKeys(): seq<KeyEntry>
  {
    [ KeyEntry("[F1]", "F1"), KeyEntry("[F2]", "F2"), KeyEntry("[F3]", "F3"),
      KeyEntry("[F4]", "F4"), KeyEntry("[F5]", "F5"), KeyEntry("[F6]", "F6"),
      KeyEntry("[F7]", "F7"), KeyEntry("[F8]", "F8"), KeyEntry("[F9]", "F9"),
      KeyEntry("[F10]", "F10"), KeyEntry("[F11]", "F11"), KeyEntry("[F12]", "F12") ]
  }

  /** The arrow keys (lines 126-129). */
  function Arrows(): seq<KeyEntry>
  {
    [ KeyEntry("[Up]", "Up"), KeyEntry("[Left]", "Left"),
      KeyEntry("[Right]", "Right"), KeyEntry("[Down]", "Down") ]
  }

  /** The navigation cluster above the arrows (lines 132-137). */
  function Navigation(): seq<KeyEntry>
  {
    [ KeyEntry("[Insert]", "Insert"), KeyEntry("[Delete]", "Delete"),
      KeyEntry("[Home]", "Home"), KeyEntry("[End]", "End"),
      KeyEntry("[PageUp]", "Page_Up"), KeyEntry("[PageDown]", "Page_Down") ]
  }

  /** The numeric keypad (lines 140-157). */
  function KeyPad(): seq<KeyEntry>
  {
    [ KeyEntry("[KeyPad0]", "KP_0"), KeyEntry("[KeyPad1]", "KP_1"), KeyEntry("[KeyPad2]", "KP_2"),
      KeyEntry("[KeyPad3]", "KP_3"), KeyEntry("[KeyPad4]", "KP_4"), KeyEntry("[KeyPad5]", "KP_5"),
      KeyEntry("[KeyPad6]", "KP_6"), KeyEntry("[KeyPad7]", "KP_7"), KeyEntry("[KeyPad8]", "KP_8"),
      KeyEntry("[KeyPad9]", "KP_9"), KeyEntry("[KeyPadPlus]", "KP_Add"),
      KeyEntry("[KeyPadMinus]", "KP_Subtract"), KeyEntry("[KeyPadMultiply]", "KP_Multiply"),
      KeyEntry("[KeyPadDivide]", "KP_Divide"), KeyEntry("[KeyPadEnter]", "KP_Enter"),
      KeyEntry("[KeyPadComma]", "KP_Comma"), KeyEntry("[KeyPadPeriod]", "KP_Period"),
      KeyEntry("[KeyPadPlusMinus]", "KP_MinPlus") ]
  }

  /** Every key that has no printable rendering of its own. */
  function NamedKeys(): seq<KeyEntry>
  {
    Modifiers() + FunctionKeys() + Arrows() + Navigation() + KeyPad()
  }

  /** The whole registry, in the order the source inserts it into its dictionary. */
  function Registry(): (r: seq<KeyEntry>)
    ensures |r| == 146
    ensures r[..62] == Alphanumerics() && r[62..94] == Punctuation() && r[94..] == NamedKeys()
  {
    Alphanumerics() + Punctuation() + NamedKeys()
  }

  // ---------------------------------------------------------------------------
  // The two kinds of label.

  /** Characters a key name is spelled with. */
  predicate IsNameChar(c: char)
  {
    IsAlphanumeric(c) || c == '_'
  }

  /** "[" + name + "]" with a non-empty name of letters, digits and underscores. */
  predicate IsNamedLabel(l: string)
  {
    |l| >= 3 && l[0] == '[' && l[|l| - 1] == ']'
    && forall j :: 1 <= j < |l| - 1 ==> IsNameChar(l[j])
  }

  /** The single characters the transcript uses as delimiters. */
  predicate IsDelimiter(c: char)
  {
    c == '(' || c == ')' || c == '[' || c == ']'
  }

  /** A delimiter key's label: its character written twice. */
  predicate IsDoubledLabel(l: string)
  {
    |l| == 2 && l[0] == l[1] && IsDelimiter(l[0])
  }

  /** One printable ASCII character that is not a delimiter, or a doubled delimiter. */
  predicate IsPrintableLabel(l: string)
  {
    (|l| == 1 && ' ' <= l[0] <= '~' && !IsDelimiter(l[0])) || IsDoubledLabel(l)
  }

  // ---------------------------------------------------------------------------
  // Per-group facts.

  /** The labels of some entries, in order. */
  function Labels(es: seq<KeyEntry>): (ls: seq<string>)
    ensures |ls| == |es|
    ensures forall i :: 0 <= i < |es| ==> ls[i] == es[i].display
  {
    seq(|es|, i requires 0 <= i < |es| => es[i].display)
  }

  predicate Distinct(ls: seq<string>)
  {
    forall i, j :: 0 <= i < j < |ls| ==> ls[i] != ls[j]
  }

  predicate Disjoint(a: seq<string>, b: seq<string>)
  {
    forall i, j :: 0 <= i < |a| && 0 <= j < |b| ==> a[i] != b[j]
  }

  lemma DistinctConcat(a: seq<string>, b: seq<string>)
    requires Distinct(a) && Distinct(b) && Disjoint(a, b)
    ensures Distinct(a + b)
  {
    forall i, j | 0 <= i < j < |a + b|
      ensures (a + b)[i] != (a + b)[j]
    {
      if j < |a| {
      } else if i < |a| {
        assert (a + b)[j] == b[j - |a|];
      } else {
        assert (a + b)[i] == b[i - |a|] && (a + b)[j] == b[j - |a|];
      }
    }
  }

  lemma DisjointConcat(a: seq<string>, b: seq<string>, c: seq<string>)
    requires Disjoint(a, c) && Disjoint(b, c)
    ensures Disjoint(a + b, c)
  {
    forall i, j | 0 <= i < |a + b| && 0 <= j < |c|
      ensures (a + b)[i] != c[j]
    {
      if i >= |a| {
        assert (a + b)[i] == b[i - |a|];
      }
    }
  }

  lemma LabelsConcat(a: seq<KeyEntry>, b: seq<KeyEntry>)
    ensures Labels(a + b) == Labels(a) + Labels(b)
  {
  }

  lemma AlphanumericsFacts()
    ensures Distinct(Labels(Alphanumerics()))
    ensures forall i :: 0 <= i < |Alphanumerics()| ==>
      |Alphanumerics()[i].display| == 1 && IsAlphanumeric(Alphanumerics()[i].display[0])
  {
    var p := PrintableAlphanumerics();
    assert |p| == 62;
    assert forall i :: 0 <= i < 10 ==> p[i] as int == '0' as int + i;
    assert forall i :: 10 <= i < 36 ==> p[i] as int == 'a' as int + i - 10;
    assert forall i :: 36 <= i < 62 ==> p[i] as int == 'A' as int + i - 36;
  }

  /** Non-empty labels whose first characters strictly ascend. */
  predicate HeadsAscend(ls: seq<string>)
  {
    (forall i :: 0 <= i < |ls| ==> ls[i] != [])
    && forall i :: 0 <= i < |ls| - 1 ==> ls[i][0] < ls[i + 1][0]
  }

  lemma {:induction false} HeadsIncrease(ls: seq<string>, i: nat, j: nat)
    requires HeadsAscend(ls)
    requires i < j < |ls|
    ensures ls[i][0] < ls[j][0]
    decreases j - i
  {
    if i + 1 < j {
      HeadsIncrease(ls, i + 1, j);
    }
  }

  /** Labels with ascending first characters are distinct. */
  lemma AscendingDistinct(ls: seq<string>)
    requires HeadsAscend(ls)
    ensures Distinct(ls)
  {
    forall i, j | 0 <= i < j < |ls|
      ensures ls[i] != ls[j]
    {
      HeadsIncrease(ls, i, j);
    }
  }

  /** The punctuation block lists its keys in ASCII order, so its labels are distinct. */
  lemma PunctuationDistinct()
    ensures Distinct(Labels(Punctuation()))
  {
    assert HeadsAscend(Labels(Punctuation()));
    AscendingDistinct(Labels(Punctuation()));
  }

  lemma PunctuationPrintable()
    ensures forall i :: 0 <= i < |Punctuation()| ==> IsPrintableLabel(Punctuation()[i].display)
    ensures forall i :: 0 <= i < |Punctuation()| ==>
      |Punctuation()[i].display| == 2 || !IsAlphanumeric(Punctuation()[i].display[0])
  {
    PunctuationPrintableLow();
    PunctuationPrintableHigh();
  }

  lemma PunctuationPrintableLow()
    ensures forall i :: 0 <= i < 16 ==>
      IsPrintableLabel(Punctuation()[i].display)
      && (|Punctuation()[i].display| == 2 || !IsAlphanumeric(Punctuation()[i].display[0]))
  {
  }

  lemma PunctuationPrintableHigh()
    ensures forall i :: 16 <= i < 32 ==>
      IsPrintableLabel(Punctuation()[i].display)
      && (|Punctuation()[i].display| == 2 || !IsAlphanumeric(Punctuation()[i].display[0]))
  {
  }

  lemma ModifiersFacts()
    ensures Distinct(Labels(Modifiers()))
    ensures forall i :: 0 <= i < |Modifiers()| ==> IsNamedLabel(Modifiers()[i].display)
  {
    ModifiersDistinct();
    ModifiersNamed();
  }

  lemma ModifiersDistinct()
    ensures Distinct(Labels(Modifiers()))
  {
  }

  lemma ModifiersNamed()
    ensures forall i :: 0 <= i < |Modifiers()| ==> IsNamedLabel(Modifiers()[i].display)
  {
  }

  lemma FunctionKeysFacts()
    ensures Distinct(Labels(FunctionKeys()))
    ensures forall i :: 0 <= i < |FunctionKeys()| ==> IsNamedLabel(FunctionKeys()[i].display)
  {
  }

  lemma ArrowsFacts()
    ensures Distinct(Labels(Arrows()))
    ensures forall i :: 0 <= i < |Arrows()| ==> IsNamedLabel(Arrows()[i].display)
  {
  }

  lemma NavigationFacts()
    ensures Distinct(Labels(Navigation()))
    ensures forall i :: 0 <= i < |Navigation()| ==> IsNamedLabel(Navigation()[i].display)
  {
  }

  lemma KeyPadDistinct()
    ensures Distinct(Labels(KeyPad()))
  {
  }

  lemma KeyPadNamed()
    ensures forall i :: 0 <= i < |KeyPad()| ==> IsNamedLabel(KeyPad()[i].display)
  {
  }

  lemma ModifiersApart()
    ensures Disjoint(Labels(Modifiers()), Labels(FunctionKeys()))
    ensures Disjoint(Labels(Modifiers()), Labels(Arrows()))
    ensures Disjoint(Labels(Modifiers()), Labels(Navigation()))
    ensures Disjoint(Labels(Modifiers()), Labels(KeyPad()))
  {
    ModifiersApartFromFunctionKeys();
    ModifiersApartFromCursorKeys();
    ModifiersApartFromKeyPad();
  }

  lemma ModifiersApartFromFunctionKeys()
    ensures Disjoint(Labels(Modifiers()), Labels(FunctionKeys()))
  {
  }

  lemma ModifiersApartFromCursorKeys()
    ensures Disjoint(Labels(Modifiers()), Labels(Arrows()))
    ensures Disjoint(Labels(Modifiers()), Labels(Navigation()))
  {
  }

  lemma ModifiersApartFromKeyPad()
    ensures Disjoint(Labels(Modifiers()), Labels(KeyPad()))
  {
  }

  lemma FunctionKeysApart()
    ensures Disjoint(Labels(FunctionKeys()), Labels(Arrows()))
    ensures Disjoint(Labels(FunctionKeys()), Labels(Navigation()))
    ensures Disjoint(Labels(FunctionKeys()), Labels(KeyPad()))
  {
  }

  lemma CursorKeysApart()
    ensures Disjoint(Labels(Arrows()), Labels(Navigation()))
    ensures Disjoint(Labels(Arrows()), Labels(KeyPad()))
    ensures Disjoint(Labels(Navigation()), Labels(KeyPad()))
  {
  }

  lemma NamedKeysFacts()
    ensures Distinct(Labels(NamedKeys()))
    ensures forall i :: 0 <= i < |NamedKeys()| ==> IsNamedLabel(NamedKeys()[i].display)
  {
    var m, f, a, n, k := Modifiers(), FunctionKeys(), Arrows(), Navigation(), KeyPad();
    ModifiersFacts(); FunctionKeysFacts(); ArrowsFacts(); NavigationFacts(); KeyPadDistinct(); KeyPadNamed();
    ModifiersApart(); FunctionKeysApart(); CursorKeysApart();
    LabelsConcat(m, f);
    LabelsConcat(m + f, a);
    LabelsConcat(m + f + a, n);
    LabelsConcat(m + f + a + n, k);
    var lm, lf, la, ln, lk := Labels(m), Labels(f), Labels(a), Labels(n), Labels(k);
    DistinctConcat(lm, lf);
    DisjointConcat(lm, lf, la);
    DistinctConcat(lm + lf, la);
    DisjointConcat(lm, lf, ln);
    DisjointConcat(lm + lf, la, ln);
    DistinctConcat(lm + lf + la, ln);
    DisjointConcat(lm, lf, lk);
    DisjointConcat(lm + lf, la, lk);
    DisjointConcat(lm + lf + la, ln, lk);
    DistinctConcat(lm + lf + la + ln, lk);
  }

  lemma PrintableKeysFacts()
    ensures Distinct(Labels(Alphanumerics() + Punctuation()))
    ensures forall i :: 0 <= i < 94 ==> IsPrintableLabel((Alphanumerics() + Punctuation())[i].display)
  {
    var a, p := Alphanumerics(), Punctuation();
    AlphanumericsFacts();
    PunctuationDistinct();
    PunctuationPrintable();
    LabelsConcat(a, p);
    DistinctConcat(Labels(a), Labels(p));
  }

  /** No two registry entries share a label, so the dictionary keeps all 146. */
  lemma RegistryDistinct()
    ensures Distinct(Labels(Registry()))
  {
    var pr, nk := Alphanumerics() + Punctuation(), NamedKeys();
    PrintableKeysFacts();
    NamedKeysFacts();
    LabelsConcat(pr, nk);
    DistinctConcat(Labels(pr), Labels(nk));
  }

  /** The first 94 labels are printable, the last 52 named. */
  lemma RegistryLabelKinds()
    ensures forall i :: 0 <= i < 94 ==> IsPrintableLabel(Registry()[i].display)
    ensures forall i :: 94 <= i < 146 ==> IsNamedLabel(Registry()[i].display)
  {
    PrintableKeysFacts();
    NamedKeysFacts();
    assert Registry() == (Alphanumerics() + Punctuation()) + NamedKeys();
  }

  /**
   * For any list whose first `split` labels are printable and whose others
   * are named: no label is a single delimiter, every named label is a name in
   * single brackets that does not start with a bracket, so none is "[[" or
   * "]]", and no printable label equals a named one.
   */
  lemma KindsNeverConfused(reg: seq<KeyEntry>, split: nat)
    requires split <= |reg|
    requires forall i :: 0 <= i < split ==> IsPrintableLabel(reg[i].display)
    requires forall i :: split <= i < |reg| ==> IsNamedLabel(reg[i].display)
    ensures forall i :: 0 <= i < |reg| ==> !(|reg[i].display| == 1 && IsDelimiter(reg[i].display[0]))
    ensures forall i :: split <= i < |reg| ==>
      var l := reg[i].display;
      |l| >= 3 && l == "[" + l[1..|l| - 1] + "]" && l[1] != '['
    ensures forall i :: split <= i < |reg| ==> reg[i].display != "[[" && reg[i].display != "]]"
    ensures forall i, j :: 0 <= i < split <= j < |reg| ==> reg[i].display != reg[j].display
  {
    forall i | split <= i < |reg|
      ensures var l := reg[i].display; l == "[" + l[1..|l| - 1] + "]" && l[1] != '['
    {
      var l := reg[i].display;
      assert IsNameChar(l[1]);
      assert l == [l[0]] + l[1..|l| - 1] + [l[|l| - 1]];
    }
    forall i, j | 0 <= i < split <= j < |reg|
      ensures reg[i].display != reg[j].display
    {
      assert IsNameChar(reg[j].display[1]);
    }
  }

  /**
   * The header comment's promise about the labels (pyX11spy.py:28-33): the
   * bracket and parenthesis keys are registered only in doubled form, never
   * as a single delimiter, and every other non-printable key is a name in
   * single brackets that does not itself start with a bracket; hence no named
   * label is "[[" or "]]" and no printable label is ever a named one.
   */
  lemma LabelsNeverConfused()
    ensures Registry()[70] == KeyEntry("((", "parenleft") && Registry()[71] == KeyEntry("))", "parenright")
    ensures Registry()[84] == KeyEntry("[[", "bracketleft") && Registry()[86] == KeyEntry("]]", "bracketright")
    ensures forall i :: 0 <= i < |Registry()| ==>
      !(|Registry()[i].display| == 1 && IsDelimiter(Registry()[i].display[0]))
    ensures forall i :: 94 <= i < |Registry()| ==>
      var l := Registry()[i].display;
      |l| >= 3 && l == "[" + l[1..|l| - 1] + "]" && l[1] != '['
    ensures forall i :: 94 <= i < |Registry()| ==> Registry()[i].display != "[[" && Registry()[i].display != "]]"
    ensures forall i, j :: 0 <= i < 94 <= j < |Registry()| ==> Registry()[i].display != Registry()[j].display
  {
    RegistryLabelKinds();
    KindsNeverConfused(Registry(), 94);
    DelimitersDoubled();
  }

  /** The four delimiter keys are registered under doubled labels. */
  lemma DelimitersDoubled()
    ensures Registry()[70] == KeyEntry("((", "parenleft") && Registry()[71] == KeyEntry("))", "parenright")
    ensures Registry()[84] == KeyEntry("[[", "bracketleft") && Registry()[86] == KeyEntry("]]", "bracketright")
  {
    var r := Registry();
    assert r[70] == r[62..94][8] && r[71] == r[62..94][9];
    assert r[84] == r[62..94][22] && r[86] == r[62..94][24];
  }

  /** The colon is missing from the punctuation the source registers. */
  lemma ColonNotRegistered()
    ensures forall i :: 0 <= i < |Registry()| ==> Registry()[i].display != ":"
  {
    AlphanumericsFacts();
    NamedKeysFacts();
    assert forall i :: 0 <= i < |Punctuation()| ==> Punctuation()[i].display != ":";
    assert Registry() == Alphanumerics() + Punctuation() + NamedKeys();
  }
}
