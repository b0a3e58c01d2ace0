/**
 * buildKeycodeDictionary (pyX11spy.py:55-169): resolve every registry entry to
 * a keycode through the display, then invert the result into the table the
 * capture loop reads, keycode -> the labels resolving to it, in registry order.
 *
 * The two X library calls are parameters: `stringToKeysym` stands for
 * XK.string_to_keysym and `keysymToKeycode` for the display's
 * keysym_to_keycode.  Whatever keycode they yield is stored; the source does
 * not filter unresolved keys, and neither does the model.
 */
module KeycodeTable {
  import opened KeyRegistry

  /** A registry label together with the keycode it resolved to. */
  datatype Binding = Binding(display: string, keycode: int)

  /** Registry entries resolved through the display, in registry order. */
  function Bindings(entries: seq<KeyEntry>, stringToKeysym: string -> int, keysymToKeycode: int -> int): seq<Binding>
  {
    seq(|entries|, i requires 0 <= i < |entries| =>
      Binding(entries[i].display, keysymToKeycode(stringToKeysym(entries[i].symbol))))
  }

  /** The labels bound to keycode `c`, in the order of `bs`. */
  function LabelsAt(bs: seq<Binding>, c: int): seq<string>
  {
    if bs == [] then []
    else LabelsAt(bs[..|bs| - 1], c) + (if bs[|bs| - 1].keycode == c then [bs[|bs| - 1].display] else [])
  }

  /** The keycodes some binding resolved to. */
  function KeycodesOf(bs: seq<Binding>): set<int>
  {
    set b | b in bs :: b.keycode
  }

  /** The inverse index the capture loop reads: one entry per keycode that was resolved to. */
  function Keychars(bs: seq<Binding>): map<int, seq<string>>
  {
    map c | c in KeycodesOf(bs) :: LabelsAt(bs, c)
  }

  /** The labels distinct, as a dictionary's keys are. */
  predicate DistinctDisplays(bs: seq<Binding>)
  {
    forall i, j :: 0 <= i < j < |bs| ==> bs[i].display != bs[j].display
  }

  /**
   * buildKeycodeDictionary: the registry resolved into the label -> keycode
   * dictionary and its inverse.
   */
  method BuildKeycodeDictionary(stringToKeysym: string -> int, keysymToKeycode: int -> int)
    returns (keycodes: map<string, int>, keychars: map<int, seq<string>>)
    ensures keycodes.Keys == set e | e in Registry() :: e.display
    ensures forall e :: e in Registry() ==> keycodes[e.display] == keysymToKeycode(stringToKeysym(e.symbol))
    ensures keychars == Keychars(Bindings(Registry(), stringToKeysym, keysymToKeycode))
  {
    RegistryDistinct();
    keycodes, keychars := ResolveEntries(Registry(), stringToKeysym, keysymToKeycode);
  }

  /**
   * Resolution of the filled-in registry in three passes: keysyms by label
   * (the keysym assignments of pyX11spy.py:57-157, a loop over the 62
   * alphanumerics and then one assignment per remaining key, written here as
   * one loop), keycodes by label (lines 160-162), and the inverse index built
   * by appending each label to its keycode's list (lines 165-167).  A
   * dictionary enumerates its keys in insertion order, which for distinct
   * labels is the order of `entries`.
   */
  method ResolveEntries(entries: seq<KeyEntry>, stringToKeysym: string -> int, keysymToKeycode: int -> int)
    returns (keycodes: map<string, int>, keychars: map<int, seq<string>>)
    requires Distinct(Labels(entries))
    ensures keycodes.Keys == set e | e in entries :: e.display
    ensures forall e :: e in entries ==> keycodes[e.display] == keysymToKeycode(stringToKeysym(e.symbol))
    ensures keychars == Keychars(Bindings(entries, stringToKeysym, keysymToKeycode))
  {
    var keysyms := ResolveKeysyms(entries, stringToKeysym);
    keycodes := ResolveKeycodes(entries, keysyms, keysymToKeycode);
    keychars := InvertKeycodes(Labels(entries), keycodes);
    ghost var bs := Bindings(entries, stringToKeysym, keysymToKeycode);
    ghost var resolved := BindingsOf(Labels(entries), keycodes);
    assert resolved == bs;
    forall e | e in entries
      ensures keycodes[e.display] == keysymToKeycode(stringToKeysym(e.symbol))
    {
      var j :| 0 <= j < |entries| && entries[j] == e;
    }
    LabelSetByIndex(entries);
  }

  /** The labels of some entries, collected by position or by membership. */
  lemma LabelSetByIndex(entries: seq<KeyEntry>)
    ensures (set j | 0 <= j < |entries| :: entries[j].display) == (set e | e in entries :: e.display)
  {
    forall e | e in entries
      ensures e.display in set j | 0 <= j < |entries| :: entries[j].display
    {
      var j :| 0 <= j < |entries| && entries[j] == e;
    }
  }

  /**
   * The keysym assignments (pyX11spy.py:57-157), written as one loop over the
   * entries: every label's keysym, by label.
   */
  method ResolveKeysyms(entries: seq<KeyEntry>, stringToKeysym: string -> int) returns (keysyms: map<string, int>)
    requires Distinct(Labels(entries))
    ensures keysyms.Keys == set j | 0 <= j < |entries| :: entries[j].display
    ensures forall j :: 0 <= j < |entries| ==> keysyms[entries[j].display] == stringToKeysym(entries[j].symbol)
  {
    keysyms := map[];
    for i := 0 to |entries|
      invariant keysyms.Keys == set j | 0 <= j < i :: entries[j].display
      invariant forall j :: 0 <= j < i ==> keysyms[entries[j].display] == stringToKeysym(entries[j].symbol)
    {
      assert forall j :: 0 <= j < i ==> Labels(entries)[j] != Labels(entries)[i];
      keysyms := keysyms[entries[i].display := stringToKeysym(entries[i].symbol)];
    }
  }

  /** The second loop (pyX11spy.py:160-162): every label's keycode, by label. */
  method ResolveKeycodes(entries: seq<KeyEntry>, keysyms: map<string, int>, keysymToKeycode: int -> int)
    returns (keycodes: map<string, int>)
    requires Distinct(Labels(entries))
    requires keysyms.Keys == set j | 0 <= j < |entries| :: entries[j].display
    ensures keycodes.Keys == set j | 0 <= j < |entries| :: entries[j].display
    ensures forall j :: 0 <= j < |entries| ==> keycodes[entries[j].display] == keysymToKeycode(keysyms[entries[j].display])
  {
    keycodes := map[];
    for i := 0 to |entries|
      invariant keycodes.Keys == set j | 0 <= j < i :: entries[j].display
      invariant forall j :: 0 <= j < i ==> keycodes[entries[j].display] == keysymToKeycode(keysyms[entries[j].display])
    {
      assert forall j :: 0 <= j < i ==> Labels(entries)[j] != Labels(entries)[i];
      var entry := entries[i].display;
      keycodes := keycodes[entry := keysymToKeycode(keysyms[entry])];
    }
  }

  /** The labels, in insertion order, paired with their keycodes. */
  function BindingsOf(labels: seq<string>, keycodes: map<string, int>): seq<Binding>
    requires forall j :: 0 <= j < |labels| ==> labels[j] in keycodes
  {
    seq(|labels|, j requires 0 <= j < |labels| => Binding(labels[j], keycodes[labels[j]]))
  }

  /**
   * The third loop (pyX11spy.py:165-167): walking the dictionary in insertion
   * order, append each label to the list of its keycode.
   */
  method InvertKeycodes(labels: seq<string>, keycodes: map<string, int>) returns (keychars: map<int, seq<string>>)
    requires forall j :: 0 <= j < |labels| ==> labels[j] in keycodes
    ensures keychars == Keychars(BindingsOf(labels, keycodes))
  {
    ghost var bs := BindingsOf(labels, keycodes);
    keychars := map[];
    for i := 0 to |labels|
      invariant keychars == Keychars(bs[..i])
    {
      var key := labels[i];
      var value := keycodes[key];
      var entry := if value in keychars then keychars[value] else [];
      KeycharsAppend(bs[..i], bs[i]);
      assert bs[..i + 1] == bs[..i] + [bs[i]];
      keychars := keychars[value := entry + [key]];
    }
    assert bs[..|labels|] == bs;
  }

  /** Appending one binding extends exactly its own keycode's list. */
  lemma KeycharsAppend(bs: seq<Binding>, b: Binding)
    ensures Keychars(bs + [b]) == Keychars(bs)[b.keycode := LabelsAt(bs, b.keycode) + [b.display]]
    ensures b.keycode !in Keychars(bs) ==> LabelsAt(bs, b.keycode) == []
  {
    var bs' := bs + [b];
    assert bs'[..|bs'| - 1] == bs;
    assert KeycodesOf(bs') == KeycodesOf(bs) + {b.keycode};
    if b.keycode !in KeycodesOf(bs) {
      LabelsAtUnused(bs, b.keycode);
    }
    forall c | c in KeycodesOf(bs') && c != b.keycode
      ensures LabelsAt(bs', c) == LabelsAt(bs, c)
    {
    }
  }

  /** A keycode nothing resolved to has no labels. */
  lemma {:induction false} LabelsAtUnused(bs: seq<Binding>, c: int)
    requires c !in KeycodesOf(bs)
    ensures LabelsAt(bs, c) == []
  {
    if bs != [] {
      var init := bs[..|bs| - 1];
      assert KeycodesOf(init) <= KeycodesOf(bs) by {
        forall x | x in KeycodesOf(init) ensures x in KeycodesOf(bs) {
          var b :| b in init && b.keycode == x;
          assert b in bs;
        }
      }
      assert bs[|bs| - 1] in bs;
      LabelsAtUnused(init, c);
    }
  }

  // ---------------------------------------------------------------------------
  // What the inverse index holds.

  /** The labels of a concatenation are the labels of its parts. */
  lemma {:induction false} LabelsAtSplit(a: seq<Binding>, b: seq<Binding>, c: int)
    ensures LabelsAt(a + b, c) == LabelsAt(a, c) + LabelsAt(b, c)
  {
    if b != [] {
      var b0 := b[..|b| - 1];
      assert (a + b)[..|a + b| - 1] == a + b0;
      LabelsAtSplit(a, b0, c);
    } else {
      assert a + b == a;
    }
  }

  /** A label is listed under `c` exactly when some binding pairs it with `c`. */
  lemma {:induction false} LabelsAtMembers(bs: seq<Binding>, c: int, l: string)
    ensures l in LabelsAt(bs, c) <==> exists j :: 0 <= j < |bs| && bs[j] == Binding(l, c)
  {
    if bs != [] {
      var init := bs[..|bs| - 1];
      LabelsAtMembers(init, c, l);
      if exists j :: 0 <= j < |bs| && bs[j] == Binding(l, c) {
        var j :| 0 <= j < |bs| && bs[j] == Binding(l, c);
        if j < |bs| - 1 {
          assert init[j] == bs[j];
        }
      }
      if l in LabelsAt(init, c) {
        var j :| 0 <= j < |init| && init[j] == Binding(l, c);
        assert bs[j] == init[j];
      }
    }
  }

  /**
   * Every registered label is listed exactly once, under the keycode it
   * resolved to, and under no other keycode.
   */
  lemma LabelListedOnce(bs: seq<Binding>, j: nat)
    requires DistinctDisplays(bs)
    requires j < |bs|
    ensures bs[j].keycode in Keychars(bs)
    ensures multiset(Keychars(bs)[bs[j].keycode])[bs[j].display] == 1
    ensures forall c :: c in Keychars(bs) && c != bs[j].keycode ==> bs[j].display !in Keychars(bs)[c]
  {
    var b := bs[j];
    assert b in bs;
    var before, after := bs[..j], bs[j + 1..];
    assert bs == before + [b] + after;
    LabelsAtSplit(before + [b], after, b.keycode);
    LabelsAtSplit(before, [b], b.keycode);
    assert LabelsAt([b], b.keycode) == [b.display] by {
      assert [b][..0] == [];
    }
    LabelsAtMembers(before, b.keycode, b.display);
    LabelsAtMembers(after, b.keycode, b.display);
    forall i | 0 <= i < |before|
      ensures before[i] != Binding(b.display, b.keycode)
    {
      assert bs[i] == before[i];
    }
    forall i | 0 <= i < |after|
      ensures after[i] != Binding(b.display, b.keycode)
    {
      assert bs[j + 1 + i] == after[i];
    }
    var x, y := LabelsAt(before, b.keycode), LabelsAt(after, b.keycode);
    assert b.display !in x && b.display !in y;
    assert LabelsAt(bs, b.keycode) == x + [b.display] + y;
    assert multiset(x + [b.display] + y) == multiset(x) + multiset{b.display} + multiset(y);
    assert b.keycode in KeycodesOf(bs);
    forall c | c in Keychars(bs) && c != b.keycode
      ensures b.display !in Keychars(bs)[c]
    {
      LabelsAtMembers(bs, c, b.display);
    }
  }

  /**
   * Each list is in registry order: of two labels sharing a keycode, the one
   * registered first is listed first.
   */
  lemma ListedInRegistryOrder(bs: seq<Binding>, i: nat, j: nat)
    requires DistinctDisplays(bs)
    requires i < j < |bs| && bs[i].keycode == bs[j].keycode
    ensures forall p, q ::
      (0 <= p < |LabelsAt(bs, bs[j].keycode)| && 0 <= q < |LabelsAt(bs, bs[j].keycode)|
       && LabelsAt(bs, bs[j].keycode)[p] == bs[i].display && LabelsAt(bs, bs[j].keycode)[q] == bs[j].display)
      ==> p < q
  {
    var c := bs[j].keycode;
    var front, back := bs[..j], bs[j..];
    assert bs == front + back;
    LabelsAtSplit(front, back, c);
    var a, b := LabelsAt(front, c), LabelsAt(back, c);
    LabelsAtMembers(front, c, bs[j].display);
    LabelsAtMembers(back, c, bs[i].display);
    forall k | 0 <= k < |front|
      ensures front[k] != Binding(bs[j].display, c)
    {
      assert bs[k] == front[k];
    }
    forall k | 0 <= k < |back|
      ensures back[k] != Binding(bs[i].display, c)
    {
      assert bs[j + k] == back[k];
    }
    forall r | |a| <= r < |a + b|
      ensures (a + b)[r] != bs[i].display
    {
      assert (a + b)[r] == b[r - |a|];
    }
    forall r | 0 <= r < |a|
      ensures (a + b)[r] != bs[j].display
    {
      assert (a + b)[r] == a[r];
    }
  }

  /**
   * The label the capture loop renders for a keycode, keychars[k][0], is that
   * of the earliest registry entry resolving to it.
   */
  lemma EarliestLabelRendered(bs: seq<Binding>, j: nat)
    requires j < |bs|
    requires forall i :: 0 <= i < j ==> bs[i].keycode != bs[j].keycode
    ensures bs[j].keycode in Keychars(bs)
    ensures Keychars(bs)[bs[j].keycode] != [] && Keychars(bs)[bs[j].keycode][0] == bs[j].display
  {
    var b := bs[j];
    assert b in bs;
    var front, back := bs[..j], bs[j + 1..];
    assert bs == front + [b] + back;
    LabelsAtSplit(front + [b], back, b.keycode);
    LabelsAtSplit(front, [b], b.keycode);
    assert LabelsAt([b], b.keycode) == [b.display] by {
      assert [b][..0] == [];
    }
    forall x | x in front
      ensures x.keycode != b.keycode
    {
      var i :| 0 <= i < |front| && front[i] == x;
      assert bs[i] == x;
    }
    LabelsAtUnused(front, b.keycode);
  }

  /** The registry's labels are distinct, so so are those of its resolved bindings. */
  lemma RegistryBindingsDistinct(stringToKeysym: string -> int, keysymToKeycode: int -> int)
    ensures DistinctDisplays(Bindings(Registry(), stringToKeysym, keysymToKeycode))
  {
    var bs := Bindings(Registry(), stringToKeysym, keysymToKeycode);
    RegistryDistinct();
    forall x, y | 0 <= x < y < |bs|
      ensures bs[x].display != bs[y].display
    {
      assert Labels(Registry())[x] == bs[x].display && Labels(Registry())[y] == bs[y].display;
    }
  }

  /**
   * Every registry label is listed exactly once in the built table, under the
   * keycode it resolved to, and under no other keycode.
   */
  lemma RegistryLabelListedOnce(stringToKeysym: string -> int, keysymToKeycode: int -> int, j: nat)
    requires j < |Registry()|
    ensures var keychars := Keychars(Bindings(Registry(), stringToKeysym, keysymToKeycode));
      var c := keysymToKeycode(stringToKeysym(Registry()[j].symbol));
      c in keychars && multiset(keychars[c])[Registry()[j].display] == 1
      && forall d :: d in keychars && d != c ==> Registry()[j].display !in keychars[d]
  {
    RegistryBindingsDistinct(stringToKeysym, keysymToKeycode);
    LabelListedOnce(Bindings(Registry(), stringToKeysym, keysymToKeycode), j);
  }

  /**
   * In the registry the lower-case letters come before the upper-case ones,
   * so when a layout puts a letter's two cases on one key (as X layouts do),
   * the capital is never the label the transcript shows for that key.
   */
  lemma LowerCaseShadowsUpperCase(stringToKeysym: string -> int, keysymToKeycode: int -> int, k: nat)
    requires k < 26
    requires var bs := Bindings(Registry(), stringToKeysym, keysymToKeycode); bs[10 + k].keycode == bs[36 + k].keycode
    ensures Registry()[10 + k].display == [('a' as int + k) as char]
    ensures Registry()[36 + k].display == [('A' as int + k) as char]
    ensures var bs := Bindings(Registry(), stringToKeysym, keysymToKeycode);
      bs[10 + k].keycode in Keychars(bs) && Keychars(bs)[bs[10 + k].keycode] != []
      && Keychars(bs)[bs[10 + k].keycode][0] != Registry()[36 + k].display
  {
    RegistryDistinct();
    SharedKeyShowsEarlier(Registry(), stringToKeysym, keysymToKeycode, 10 + k, 36 + k);
    LetterCases(k);
  }

  /**
   * When no earlier registry entry (a digit or an earlier letter) resolved to
   * the keycode of the k-th lower-case letter, that letter is the label the
   * transcript shows for the key.
   */
  lemma LowerCaseShown(stringToKeysym: string -> int, keysymToKeycode: int -> int, k: nat)
    requires k < 26
    requires var bs := Bindings(Registry(), stringToKeysym, keysymToKeycode);
      forall i :: 0 <= i < 10 + k ==> bs[i].keycode != bs[10 + k].keycode
    ensures var bs := Bindings(Registry(), stringToKeysym, keysymToKeycode);
      bs[10 + k].keycode in Keychars(bs) && Keychars(bs)[bs[10 + k].keycode] != []
      && Keychars(bs)[bs[10 + k].keycode][0] == [('a' as int + k) as char]
  {
    var bs := Bindings(Registry(), stringToKeysym, keysymToKeycode);
    EarliestLabelRendered(bs, 10 + k);
    LetterCases(k);
  }

  /** Registry positions 10 + k and 36 + k hold the two cases of the k-th letter. */
  lemma LetterCases(k: nat)
    requires k < 26
    ensures Registry()[10 + k].display == [('a' as int + k) as char]
    ensures Registry()[36 + k].display == [('A' as int + k) as char]
  {
    var p := PrintableAlphanumerics();
    var a := Alphanumerics();
    assert Registry()[10 + k] == a[10 + k] && Registry()[36 + k] == a[36 + k];
    assert p[10 + k] as int == 'a' as int + k && p[36 + k] as int == 'A' as int + k;
  }

  /** Of two entries resolving to one keycode, the later one is never the rendered label. */
  lemma SharedKeyShowsEarlier(entries: seq<KeyEntry>, stringToKeysym: string -> int, keysymToKeycode: int -> int, i: nat, j: nat)
    requires Distinct(Labels(entries))
    requires i < j < |entries|
    requires var bs := Bindings(entries, stringToKeysym, keysymToKeycode); bs[i].keycode == bs[j].keycode
    ensures var bs := Bindings(entries, stringToKeysym, keysymToKeycode);
      bs[i].keycode in Keychars(bs) && Keychars(bs)[bs[i].keycode] != []
      && Keychars(bs)[bs[i].keycode][0] != bs[j].display
  {
    var bs := Bindings(entries, stringToKeysym, keysymToKeycode);
    assert DistinctDisplays(bs) by {
      forall x, y | 0 <= x < y < |bs| ensures bs[x].display != bs[y].display {
        assert Labels(entries)[x] == bs[x].display && Labels(entries)[y] == bs[y].display;
      }
    }
    assert bs[i] in bs;
    LabelsAtMembers(bs, bs[i].keycode, bs[i].display);
    ListedInRegistryOrder(bs, i, j);
  }
}
