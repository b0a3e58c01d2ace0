/**
 * Reading the keystroke transcript back.  The header comment of pyX11spy.py
 * (lines 28-39) promises that, because named keys are written in single
 * brackets and the bracket keys themselves are written doubled, "there should
 * be no confusion as to the series of keystrokes actually used".  For presses
 * this is proved here: the registry's labels form a prefix code, `Decode`
 * splits any run of press tokens back into the labels that were printed, and
 * so two different key sequences never print the same text.  For releases
 * printed in parentheses the promise does not hold; `ReleasesCanBeConfused`
 * exhibits two different edge sequences with the same transcript.
 */
module Transcript {
  import opened Numerals
  import opened KeyRegistry
  import opened Render

  /** A label the transcript can contain: a printable one or a named one. */
  predicate IsLabel(l: string)
  {
    IsPrintableLabel(l) || IsNamedLabel(l)
  }

  /** Press tokens printed one after another, with nothing between them. */
  function Joined(ls: seq<string>): string
  {
    if ls == [] then "" else ls[0] + Joined(ls[1..])
  }

  /**
   * The length of the token at the start of `s`: two characters for a
   * doubled delimiter, up to and including the first ']' for a named key,
   * one character otherwise.
   */
  function TokenLength(s: string): (n: nat)
    requires s != []
    ensures 1 <= n <= |s|
  {
    if s[0] == '[' && !(|s| >= 2 && s[1] == '[') then
      var close := IndexFrom(s, ']', 1);
      if close < |s| then close + 1 else |s|
    else if IsDelimiter(s[0]) && |s| >= 2 then 2
    else 1
  }

  /** Split a transcript into tokens, left to right. */
  function Decode(s: string): (ls: seq<string>)
    ensures Joined(ls) == s
    decreases |s|
  {
    if s == [] then []
    else
      var n := TokenLength(s);
      assert s == s[..n] + s[n..];
      [s[..n]] + Decode(s[n..])
  }

  /** A label followed by anything is read back as exactly that label. */
  lemma TokenLengthOfLabel(l: string, rest: string)
    requires IsLabel(l)
    ensures TokenLength(l + rest) == |l|
  {
    var s := l + rest;
    if IsNamedLabel(l) {
      assert s[|l| - 1] == ']';
      forall j | 1 <= j < |l| - 1
        ensures s[j] != ']'
      {
        assert s[j] == l[j] && IsNameChar(l[j]);
      }
      assert IsNameChar(s[1]);
    }
  }

  /** Decoding what a run of labels printed gives back those labels. */
  lemma {:induction false} DecodeJoined(ls: seq<string>)
    requires forall i :: 0 <= i < |ls| ==> IsLabel(ls[i])
    ensures Decode(Joined(ls)) == ls
  {
    if ls != [] {
      var s := Joined(ls);
      var rest := Joined(ls[1..]);
      TokenLengthOfLabel(ls[0], rest);
      assert s[..|ls[0]|] == ls[0];
      assert s[|ls[0]|..] == rest;
      DecodeJoined(ls[1..]);
      assert ls == [ls[0]] + ls[1..];
    }
  }

  /** `ls` consists of labels of the registry. */
  predicate RegisteredLabels(ls: seq<string>)
  {
    forall i :: 0 <= i < |ls| ==> exists j :: 0 <= j < |Registry()| && Registry()[j].display == ls[i]
  }

  /**
   * The promise for presses: two sequences of registry labels print the same
   * text only when they are the same sequence, and `Decode` recovers it.
   */
  lemma PressesNeverConfused(ls: seq<string>, ms: seq<string>)
    requires RegisteredLabels(ls) && RegisteredLabels(ms)
    ensures Decode(Joined(ls)) == ls
    ensures Joined(ls) == Joined(ms) <==> ls == ms
  {
    RegistryLabelKinds();
    forall i | 0 <= i < |ls|
      ensures IsLabel(ls[i])
    {
      var j :| 0 <= j < |Registry()| && Registry()[j].display == ls[i];
    }
    forall i | 0 <= i < |ms|
      ensures IsLabel(ms[i])
    {
      var j :| 0 <= j < |Registry()| && Registry()[j].display == ms[i];
    }
    DecodeJoined(ls);
    DecodeJoined(ms);
  }

  /**
   * With releases printed in parentheses the transcript is ambiguous: if
   * keycode p prints "((" and keycode q prints "))", pressing p while
   * releasing q prints the same text as releasing p while pressing q, though
   * the two scans saw opposite edges.  With p < q both edge lists are in the
   * ascending keycode order a scan produces.
   */
  lemma ReleasesCanBeConfused(keychars: map<int, seq<string>>, p: nat, q: nat)
    requires p < q
    requires Lookup(keychars, p) == ["(("] && Lookup(keychars, q) == ["))"]
    ensures [Edge(p, true), Edge(q, false)] != [Edge(p, false), Edge(q, true)]
    ensures Joined(RenderEdges([Edge(p, true), Edge(q, false)], keychars, true))
         == Joined(RenderEdges([Edge(p, false), Edge(q, true)], keychars, true))
  {
    RenderedPair(Edge(p, true), Edge(q, false), keychars);
    RenderedPair(Edge(p, false), Edge(q, true), keychars);
    var closeReleased, openReleased := "(" + "))" + ")", "(" + "((" + ")";
    assert closeReleased[0] == '(' && closeReleased[1] == ')' && closeReleased[2] == ')' && closeReleased[3] == ')';
    assert openReleased[0] == '(' && openReleased[1] == '(' && openReleased[2] == '(' && openReleased[3] == ')';
    assert closeReleased == "()))" && openReleased == "((()";
    assert "((" + "()))" == "((()" + "))";
  }

  /** Two edges, rendered with releases printed and both keycodes labelled, print their two tokens back to back. */
  lemma RenderedPair(e: Edge, f: Edge, keychars: map<int, seq<string>>)
    requires Lookup(keychars, e.keycode) != [] && Lookup(keychars, f.keycode) != []
    ensures |RenderEdge(e, keychars, true)| == 1 && |RenderEdge(f, keychars, true)| == 1
    ensures Joined(RenderEdges([e, f], keychars, true))
         == RenderEdge(e, keychars, true)[0] + RenderEdge(f, keychars, true)[0]
  {
    RenderEdgesSnoc([e], f, keychars, true);
    RenderEdgesSnoc([], e, keychars, true);
    assert [] + [e] == [e] && [e] + [f] == [e, f];
    var t, u := RenderEdge(e, keychars, true)[0], RenderEdge(f, keychars, true)[0];
    assert RenderEdges([e, f], keychars, true) == [t, u];
    assert Joined([t, u]) == t + Joined([u]);
  }
}
