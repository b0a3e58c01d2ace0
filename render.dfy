/**
 * One pass of the capture loop over the keyboard (pyX11spy.py:200-210): the
 * 256 keycodes are compared in ascending order between the snapshot just
 * queried and the previous one; a newly held key prints its label, a released
 * key prints its label in parentheses when releases are reported, and a
 * keycode with no label prints the "unsupported" diagnostic instead.
 *
 * The model splits the pass in two: `Edges`, the changed keycodes in
 * ascending order with their direction, and `RenderEdge`, what one edge
 * prints.  `ScanKeymap` is the loop itself, proved to print exactly the
 * rendering of the edges.
 */
module Render {
  import opened Numerals
  import opened Keymap

  /** A keycode whose bit changed, and whether the key is now held. */
  datatype Edge = Edge(keycode: nat, pressed: bool)

  /** The edges among keycodes 0 .. n - 1, in ascending keycode order. */
  function EdgesBelow(keys: Keymap, previous: Keymap, n: nat): seq<Edge>
    requires n <= KeycodeCount
  {
    if n == 0 then []
    else if Pressed(keys, n - 1) != Pressed(previous, n - 1) then
      EdgesBelow(keys, previous, n - 1) + [Edge(n - 1, Pressed(keys, n - 1))]
    else EdgesBelow(keys, previous, n - 1)
  }

  /** Every edge between two snapshots, in ascending keycode order. */
  function Edges(keys: Keymap, previous: Keymap): seq<Edge>
  {
    EdgesBelow(keys, previous, KeycodeCount)
  }

  /** keychars[k] read through the defaultdict: a keycode never resolved to reads as []. */
  function Lookup(keychars: map<int, seq<string>>, k: int): seq<string>
  {
    if k in keychars then keychars[k] else []
  }

  /**
   * The diagnostic line printed when a keycode that must be printed has no
   * label: "[-] Key code ", the keycode in decimal, and " currently
   * unsupported." with the newline print adds.
   */
  function Unsupported(keycode: nat): (line: string)
    ensures |line| > 13 + 24
    ensures line[..13] == "[-] Key code " && line[|line| - 24..] == " currently unsupported.\n"
    ensures forall i :: 13 <= i < |line| - 24 ==> IsDigit(line[i], 10)
    ensures line[13..|line| - 24] == Decimal(keycode)
  {
    var d := Decimal(keycode);
    var line := "[-] Key code " + d + " currently unsupported.\n";
    assert line[..13] == "[-] Key code ";
    assert line[|line| - 24..] == " currently unsupported.\n";
    assert forall i :: 13 <= i < |line| - 24 ==> line[i] == d[i - 13];
    line
  }

  /**
   * What one edge prints.  Indexing an empty label list raises IndexError,
   * which the loop turns into the diagnostic; a release without `printUp`
   * never gets as far as the lookup.
   */
  function RenderEdge(e: Edge, keychars: map<int, seq<string>>, printUp: bool): (out: seq<string>)
    ensures |out| <= 1
    ensures out == [] <==> !e.pressed && !printUp
    ensures out != [] && Lookup(keychars, e.keycode) == [] ==> out == [Unsupported(e.keycode)]
    ensures e.pressed && Lookup(keychars, e.keycode) != [] ==> out == [Lookup(keychars, e.keycode)[0]]
    ensures !e.pressed && printUp && Lookup(keychars, e.keycode) != [] ==> out == ["(" + Lookup(keychars, e.keycode)[0] + ")"]
  {
    var labels := Lookup(keychars, e.keycode);
    if e.pressed then
      (if labels == [] then [Unsupported(e.keycode)] else [labels[0]])
    else if printUp then
      (if labels == [] then [Unsupported(e.keycode)] else ["(" + labels[0] + ")"])
    else []
  }

  /** The renderings of a sequence of edges, one after another. */
  function RenderEdges(es: seq<Edge>, keychars: map<int, seq<string>>, printUp: bool): seq<string>
  {
    if es == [] then []
    else RenderEdges(es[..|es| - 1], keychars, printUp) + RenderEdge(es[|es| - 1], keychars, printUp)
  }

  /** Everything one pass over the keymap prints. */
  function ScanOutput(keys: Keymap, previous: Keymap, keychars: map<int, seq<string>>, printUp: bool): seq<string>
  {
    RenderEdges(Edges(keys, previous), keychars, printUp)
  }

  /** The loop over the 256 keycodes (pyX11spy.py:201-209), each print one element of `out`. */
  method ScanKeymap(keys: Keymap, previousKeys: Keymap, keychars: map<int, seq<string>>, printUp: bool)
    returns (out: seq<string>)
    ensures out == RenderEdges(Edges(keys, previousKeys), keychars, printUp)
  {
    out := [];
    for index := 0 to KeycodeCount
      invariant out == PrintedBelow(keys, previousKeys, index, keychars, printUp)
    {
      var printed := ScanIndex(keys, previousKeys, index, keychars, printUp);
      PrintedBelowNext(keys, previousKeys, index, printed, keychars, printUp);
      out := out + printed;
    }
    PrintedBelowRendersEdges(keys, previousKeys, KeycodeCount, keychars, printUp);
  }

  /** What the loop has printed once it has looked at keycodes 0 .. n - 1. */
  function PrintedBelow(keys: Keymap, previous: Keymap, n: nat, keychars: map<int, seq<string>>, printUp: bool): seq<string>
    requires n <= KeycodeCount
  {
    if n == 0 then []
    else if Pressed(keys, n - 1) != Pressed(previous, n - 1) then
      PrintedBelow(keys, previous, n - 1, keychars, printUp) + RenderEdge(Edge(n - 1, Pressed(keys, n - 1)), keychars, printUp)
    else PrintedBelow(keys, previous, n - 1, keychars, printUp)
  }

  /** Looking at one more keycode appends what that keycode prints. */
  lemma PrintedBelowNext(keys: Keymap, previous: Keymap, n: nat, printed: seq<string>,
                         keychars: map<int, seq<string>>, printUp: bool)
    requires n < KeycodeCount
    requires Pressed(keys, n) == Pressed(previous, n) ==> printed == []
    requires Pressed(keys, n) != Pressed(previous, n) ==> printed == RenderEdge(Edge(n, Pressed(keys, n)), keychars, printUp)
    ensures PrintedBelow(keys, previous, n + 1, keychars, printUp) == PrintedBelow(keys, previous, n, keychars, printUp) + printed
  {
    if Pressed(keys, n) == Pressed(previous, n) {
      assert PrintedBelow(keys, previous, n, keychars, printUp) + [] == PrintedBelow(keys, previous, n, keychars, printUp);
    }
  }

  /** Printing keycode by keycode is rendering the edges one by one. */
  lemma {:induction false} PrintedBelowRendersEdges(keys: Keymap, previous: Keymap, n: nat,
                                                    keychars: map<int, seq<string>>, printUp: bool)
    requires n <= KeycodeCount
    ensures PrintedBelow(keys, previous, n, keychars, printUp) == RenderEdges(EdgesBelow(keys, previous, n), keychars, printUp)
  {
    if n > 0 {
      PrintedBelowRendersEdges(keys, previous, n - 1, keychars, printUp);
      RendersEdgesStep(keys, previous, n, keychars, printUp);
    }
  }

  /** If the output so far renders the edges so far, so does it after keycode n. */
  lemma RendersEdgesStep(keys: Keymap, previous: Keymap, n: nat, keychars: map<int, seq<string>>, printUp: bool)
    requires 0 < n <= KeycodeCount
    requires PrintedBelow(keys, previous, n - 1, keychars, printUp) == RenderEdges(EdgesBelow(keys, previous, n - 1), keychars, printUp)
    ensures PrintedBelow(keys, previous, n, keychars, printUp) == RenderEdges(EdgesBelow(keys, previous, n), keychars, printUp)
  {
    BelowStep(keys, previous, n, keychars, printUp);
    RenderingStep(PrintedBelow(keys, previous, n - 1, keychars, printUp), EdgesBelow(keys, previous, n - 1),
                  Edge(n - 1, Pressed(keys, n - 1)), Pressed(keys, n - 1) != Pressed(previous, n - 1),
                  PrintedBelow(keys, previous, n, keychars, printUp), EdgesBelow(keys, previous, n), keychars, printUp);
  }

  /** Looking at keycode n - 1 adds its edge, and its rendering, exactly when its bit changed. */
  lemma BelowStep(keys: Keymap, previous: Keymap, n: nat, keychars: map<int, seq<string>>, printUp: bool)
    requires 0 < n <= KeycodeCount
    ensures var changed := Pressed(keys, n - 1) != Pressed(previous, n - 1);
      var e := Edge(n - 1, Pressed(keys, n - 1));
      var done := EdgesBelow(keys, previous, n - 1);
      EdgesBelow(keys, previous, n) == if changed then done + [e] else done
    ensures var changed := Pressed(keys, n - 1) != Pressed(previous, n - 1);
      var e := Edge(n - 1, Pressed(keys, n - 1));
      var printed := PrintedBelow(keys, previous, n - 1, keychars, printUp);
      PrintedBelow(keys, previous, n, keychars, printUp) == if changed then printed + RenderEdge(e, keychars, printUp) else printed
  {
  }

  /** One step of the loop keeps "printed so far is the rendering of the edges so far". */
  lemma RenderingStep(printed: seq<string>, done: seq<Edge>, e: Edge, changed: bool,
                      printed': seq<string>, done': seq<Edge>, keychars: map<int, seq<string>>, printUp: bool)
    requires printed == RenderEdges(done, keychars, printUp)
    requires changed ==> done' == done + [e] && printed' == printed + RenderEdge(e, keychars, printUp)
    requires !changed ==> done' == done && printed' == printed
    ensures printed' == RenderEdges(done', keychars, printUp)
  {
    if changed {
      RenderEdgesSnoc(done, e, keychars, printUp);
    }
  }

  /**
   * The body of the loop for one keycode (pyX11spy.py:202-209): nothing when
   * its bit is unchanged, otherwise the rendering of its edge.
   */
  method ScanIndex(keys: Keymap, previousKeys: Keymap, index: nat, keychars: map<int, seq<string>>, printUp: bool)
    returns (printed: seq<string>)
    requires index < KeycodeCount
    ensures Pressed(keys, index) == Pressed(previousKeys, index) ==> printed == []
    ensures Pressed(keys, index) != Pressed(previousKeys, index) ==>
      printed == RenderEdge(Edge(index, Pressed(keys, index)), keychars, printUp)
  {
    printed := [];
    GetBitsDiffer(keys, previousKeys, index);
    if GetBit(keys, index) != GetBit(previousKeys, index) {
      var labels := if index in keychars then keychars[index] else [];
      if GetBit(keys, index) != 0 {
        if labels == [] {
          printed := [Unsupported(index)];
        } else {
          printed := [labels[0]];
        }
      } else if printUp {
        if labels == [] {
          printed := [Unsupported(index)];
        } else {
          printed := ["(" + labels[0] + ")"];
        }
      }
    }
  }

  /** Rendering one more edge appends its rendering. */
  lemma RenderEdgesSnoc(es: seq<Edge>, e: Edge, keychars: map<int, seq<string>>, printUp: bool)
    ensures RenderEdges(es + [e], keychars, printUp) == RenderEdges(es, keychars, printUp) + RenderEdge(e, keychars, printUp)
  {
    assert (es + [e])[..|es|] == es;
  }

  // ---------------------------------------------------------------------------
  // The differ.

  /**
   * The edges are exactly the keycodes whose bit changed, each with the new
   * state of its key, listed in strictly ascending keycode order.
   */
  lemma {:induction false} EdgesAreChanges(keys: Keymap, previous: Keymap, n: nat)
    requires n <= KeycodeCount
    ensures forall e :: e in EdgesBelow(keys, previous, n) <==>
      (e.keycode < n && Pressed(keys, e.keycode) != Pressed(previous, e.keycode) && e.pressed == Pressed(keys, e.keycode))
    ensures forall p, q :: 0 <= p < q < |EdgesBelow(keys, previous, n)| ==>
      EdgesBelow(keys, previous, n)[p].keycode < EdgesBelow(keys, previous, n)[q].keycode
    ensures forall p :: 0 <= p < |EdgesBelow(keys, previous, n)| ==> EdgesBelow(keys, previous, n)[p].keycode < n
  {
    if n > 0 {
      EdgesAreChanges(keys, previous, n - 1);
    }
  }

  /** Two identical snapshots have no edges, so the pass prints nothing. */
  lemma {:induction false} IdenticalKeymapsSilent(keys: Keymap, n: nat, keychars: map<int, seq<string>>, printUp: bool)
    requires n <= KeycodeCount
    ensures EdgesBelow(keys, keys, n) == []
    ensures RenderEdges(EdgesBelow(keys, keys, n), keychars, printUp) == []
  {
    if n > 0 {
      IdenticalKeymapsSilent(keys, n - 1, keychars, printUp);
    }
  }

  /** Snapshots differing in one bit have exactly one edge, at that keycode. */
  lemma {:induction false} SingleChangeOneEdge(keys: Keymap, previous: Keymap, k: nat, n: nat)
    requires DiffersOnlyAt(keys, previous, k)
    requires n <= KeycodeCount
    ensures EdgesBelow(keys, previous, n) == if k < n then [Edge(k, Pressed(keys, k))] else []
  {
    if n > 0 {
      SingleChangeOneEdge(keys, previous, k, n - 1);
    }
  }

  /**
   * What a pass prints when the snapshots differ in keycode `k` alone: the
   * label on a press, the label in parentheses on a release when releases are
   * reported, nothing on an unreported release, and the diagnostic when the
   * keycode has no label but would print.
   */
  lemma SingleChangeOutput(keys: Keymap, previous: Keymap, k: nat, keychars: map<int, seq<string>>, printUp: bool)
    requires DiffersOnlyAt(keys, previous, k)
    requires k < KeycodeCount
    ensures Pressed(keys, k) && Lookup(keychars, k) != [] ==>
      ScanOutput(keys, previous, keychars, printUp) == [Lookup(keychars, k)[0]]
    ensures !Pressed(keys, k) && printUp && Lookup(keychars, k) != [] ==>
      ScanOutput(keys, previous, keychars, printUp) == ["(" + Lookup(keychars, k)[0] + ")"]
    ensures !Pressed(keys, k) && !printUp ==> ScanOutput(keys, previous, keychars, printUp) == []
    ensures (Pressed(keys, k) || printUp) && Lookup(keychars, k) == [] ==>
      ScanOutput(keys, previous, keychars, printUp) == [Unsupported(k)]
  {
    SingleChangeOneEdge(keys, previous, k, KeycodeCount);
    var e := Edge(k, Pressed(keys, k));
    RenderEdgesSnoc([], e, keychars, printUp);
    assert [] + [e] == [e];
  }

  /** The diagnostic names its keycode: the number after "[-] Key code " reads back as k. */
  lemma UnsupportedNamesKeycode(k: nat)
    ensures NumberAt(Unsupported(k), 13, 10) == k
  {
    var prefix, rest := "[-] Key code ", "currently unsupported.\n";
    var d := Decimal(k);
    assert d == Digits(k, 10);
    assert " currently unsupported.\n" == " " + rest;
    assert Unsupported(k) == prefix + d + " " + rest;
    NumberAtDigits(prefix, k, 10, rest);
  }

  /**
   * Every line a pass prints is the whole rendering of one edge that prints:
   * a press, or a release while releases are reported.  With `printUp` off,
   * a release never prints, not even the diagnostic.
   */
  lemma {:induction false} TokensComeFromEdges(es: seq<Edge>, keychars: map<int, seq<string>>, printUp: bool)
    ensures forall t :: t in RenderEdges(es, keychars, printUp) ==>
      exists e :: e in es && (e.pressed || printUp) && RenderEdge(e, keychars, printUp) == [t]
  {
    if es != [] {
      var init, last := es[..|es| - 1], es[|es| - 1];
      TokensComeFromEdges(init, keychars, printUp);
      forall t | t in RenderEdges(es, keychars, printUp)
        ensures exists e :: e in es && (e.pressed || printUp) && RenderEdge(e, keychars, printUp) == [t]
      {
        if t in RenderEdges(init, keychars, printUp) {
          var e :| e in init && (e.pressed || printUp) && RenderEdge(e, keychars, printUp) == [t];
          assert e in es;
        } else {
          assert last in es;
        }
      }
    }
  }
}
