/**
 * captureKeystrokes (pyX11spy.py:171-210): build the label table, announce
 * the display and the window holding the focus, then, once per sample, report
 * a change of focus and the keys whose state changed since the last sample.
 *
 * The X queries of one iteration (the focused window and the keymap) are a
 * `Poll`; the unbounded loop becomes `Capture` over a finite sequence of
 * polls.  The loop's own variables live in `KeystrokeCapture`, whose `output`
 * collects what the program prints, one element per print call.
 */
module Capture {
  import opened Numerals
  import opened Keymap
  import opened Focus
  import opened Render
  import opened KeyRegistry
  import opened KeycodeTable

  /** What one iteration of the loop asks the X server. */
  datatype Poll = Poll(focus: Window, keys: Keymap)

  /**
   * The two lines printed before the loop starts: the display being watched,
   * then a banner, after one blank line, naming the window holding the focus.
   */
  function Opening(displayName: string, focus: Window): (lines: seq<string>)
    ensures |lines| == 2
    ensures |lines[0]| >= 25 && lines[0][..25] == "[+] Beginning collect on " && lines[0][25..] == displayName + "\n"
    ensures |lines[1]| > 4 && lines[1][..1] == "\n" && NumberAt(lines[1], 4, 16) == focus.id
    ensures lines[1] == Banner("\n", focus)
  {
    var intro := "[+] Beginning collect on " + displayName + "\n";
    assert intro[..25] == "[+] Beginning collect on " && intro[25..] == displayName + "\n";
    BannerNamesWindow("\n", focus);
    [intro, Banner("\n", focus)]
  }

  /** What one iteration prints: the focus banner, if any, then the key tokens. */
  function StepOutput(previousFocus: Window, previousKeys: Keymap, poll: Poll,
                      keychars: map<int, seq<string>>, printUp: bool): seq<string>
  {
    FocusOutput(previousFocus, poll.focus) + ScanOutput(poll.keys, previousKeys, keychars, printUp)
  }

  /** What the loop prints over a sequence of polls, starting from the remembered state. */
  function RunOutput(previousFocus: Window, previousKeys: Keymap, polls: seq<Poll>,
                     keychars: map<int, seq<string>>, printUp: bool): seq<string>
    decreases |polls|
  {
    if polls == [] then []
    else
      StepOutput(previousFocus, previousKeys, polls[0], keychars, printUp)
      + RunOutput(FocusNext(previousFocus, polls[0].focus), polls[0].keys, polls[1..], keychars, printUp)
  }

  /** The window and keymap the loop remembers after a sequence of polls. */
  function After(previousFocus: Window, previousKeys: Keymap, polls: seq<Poll>): (Window, Keymap)
    decreases |polls|
  {
    if polls == [] then (previousFocus, previousKeys)
    else After(FocusNext(previousFocus, polls[0].focus), polls[0].keys, polls[1..])
  }

  /** The state of a running capture loop. */
  class KeystrokeCapture {
    /** The keycode -> labels table. */
    const keychars: map<int, seq<string>>
    /** Whether releases are printed. */
    const printUp: bool
    /** The window that last held the focus (previous_focus). */
    var previousFocus: Window
    /** The keymap of the last sample (previous_keys). */
    var previousKeys: Keymap
    /** Everything printed so far. */
    var output: seq<string>

    /** The set-up before the loop: the opening lines, and no key held. */
    constructor (keychars: map<int, seq<string>>, printUp: bool, displayName: string, focus: Window)
      ensures this.keychars == keychars && this.printUp == printUp
      ensures previousFocus == focus && previousKeys == NoKeysHeld
      ensures output == Opening(displayName, focus)
    {
      this.keychars := keychars;
      this.printUp := printUp;
      previousFocus := focus;
      previousKeys := NoKeysHeld;
      output := ["[+] Beginning collect on " + displayName + "\n"] + [Banner("\n", focus)];
    }

    /** One iteration of the loop body (pyX11spy.py:190-210). */
    method Sample(focus: Window, keys: Keymap)
      modifies this
      ensures output == old(output) + StepOutput(old(previousFocus), old(previousKeys), Poll(focus, keys), keychars, printUp)
      ensures previousFocus == FocusNext(old(previousFocus), focus)
      ensures previousKeys == keys
    {
      ghost var announced := FocusOutput(previousFocus, focus);
      ghost var before := output;
      if focus.id != previousFocus.id {
        output := output + [Banner("\n\n", focus)];
        previousFocus := focus;
      }
      assert output == before + announced;
      var printed := ScanKeymap(keys, previousKeys, keychars, printUp);
      output := output + printed;
      ConcatShift(output, before, announced, printed);
      previousKeys := keys;
    }

    /** The loop run over a finite sequence of polls. */
    method Capture(polls: seq<Poll>)
      modifies this
      ensures output == old(output) + RunOutput(old(previousFocus), old(previousKeys), polls, keychars, printUp)
      ensures (previousFocus, previousKeys) == After(old(previousFocus), old(previousKeys), polls)
    {
      ghost var run := RunOutput(previousFocus, previousKeys, polls, keychars, printUp);
      ghost var final := After(previousFocus, previousKeys, polls);
      ghost var start := output;
      for i := 0 to |polls|
        invariant start + run == output + RunOutput(previousFocus, previousKeys, polls[i..], keychars, printUp)
        invariant final == After(previousFocus, previousKeys, polls[i..])
      {
        RunUnfold(previousFocus, previousKeys, polls, i, keychars, printUp);
        ghost var step := StepOutput(previousFocus, previousKeys, polls[i], keychars, printUp);
        ghost var before := output;
        assert Poll(polls[i].focus, polls[i].keys) == polls[i];
        Sample(polls[i].focus, polls[i].keys);
        ConcatShift(start + run, before, step, RunOutput(previousFocus, previousKeys, polls[i + 1..], keychars, printUp));
      }
      assert polls[|polls|..] == [];
    }
  }

  /** Moving a printed step from the pending run to the output keeps the total. */
  lemma ConcatShift<T>(total: seq<T>, before: seq<T>, step: seq<T>, rest: seq<T>)
    requires total == before + (step + rest) || total == (before + step) + rest
    ensures total == (before + step) + rest && total == before + (step + rest)
  {
  }

  /** The run from poll i on is the step at poll i followed by the run from poll i + 1. */
  lemma RunUnfold(previousFocus: Window, previousKeys: Keymap, polls: seq<Poll>, i: nat,
                  keychars: map<int, seq<string>>, printUp: bool)
    requires i < |polls|
    ensures RunOutput(previousFocus, previousKeys, polls[i..], keychars, printUp)
      == StepOutput(previousFocus, previousKeys, polls[i], keychars, printUp)
      + RunOutput(FocusNext(previousFocus, polls[i].focus), polls[i].keys, polls[i + 1..], keychars, printUp)
    ensures After(previousFocus, previousKeys, polls[i..])
      == After(FocusNext(previousFocus, polls[i].focus), polls[i].keys, polls[i + 1..])
  {
    assert polls[i..][0] == polls[i];
    assert polls[i..][1..] == polls[i + 1..];
  }

  /**
   * captureKeystrokes over a finite sequence of polls: what it prints is the
   * opening lines followed by the run from the initial focus and no key held,
   * with the table built from the registry.
   */
  method CaptureKeystrokes(stringToKeysym: string -> int, keysymToKeycode: int -> int, printUp: bool,
                           displayName: string, initialFocus: Window, polls: seq<Poll>)
    returns (out: seq<string>)
    ensures out == Opening(displayName, initialFocus)
      + RunOutput(initialFocus, NoKeysHeld, polls, Keychars(Bindings(Registry(), stringToKeysym, keysymToKeycode)), printUp)
  {
    var keycodes, keychars := BuildKeycodeDictionary(stringToKeysym, keysymToKeycode);
    var capture := new KeystrokeCapture(keychars, printUp, displayName, initialFocus);
    capture.Capture(polls);
    out := capture.output;
  }

  // ---------------------------------------------------------------------------
  // Properties of a run.

  /** After a run the loop remembers the last keymap queried and the last focused id. */
  lemma {:induction false} AfterRemembersLast(previousFocus: Window, previousKeys: Keymap, polls: seq<Poll>)
    requires polls != []
    ensures After(previousFocus, previousKeys, polls).1 == polls[|polls| - 1].keys
    ensures After(previousFocus, previousKeys, polls).0.id == polls[|polls| - 1].focus.id
    decreases |polls|
  {
    if |polls| > 1 {
      AfterRemembersLast(FocusNext(previousFocus, polls[0].focus), polls[0].keys, polls[1..]);
    }
  }

  /** Samples that repeat the remembered keymap under the same focused id print nothing. */
  lemma {:induction false} RunQuiet(previousFocus: Window, previousKeys: Keymap, polls: seq<Poll>,
                                    keychars: map<int, seq<string>>, printUp: bool)
    requires forall i :: 0 <= i < |polls| ==> polls[i].focus.id == previousFocus.id && polls[i].keys == previousKeys
    ensures RunOutput(previousFocus, previousKeys, polls, keychars, printUp) == []
  {
    if polls != [] {
      IdenticalKeymapsSilent(previousKeys, KeycodeCount, keychars, printUp);
      RunQuiet(previousFocus, previousKeys, polls[1..], keychars, printUp);
    }
  }

  /**
   * A key pressed at the first sample and held through all later ones, with
   * the focus staying put, prints its label once and nothing else.
   */
  lemma HeldKeyPressedOnce(previousFocus: Window, previousKeys: Keymap, polls: seq<Poll>, k: nat,
                           keychars: map<int, seq<string>>, printUp: bool)
    requires polls != [] && k < KeycodeCount
    requires DiffersOnlyAt(polls[0].keys, previousKeys, k) && Pressed(polls[0].keys, k)
    requires Lookup(keychars, k) != []
    requires forall i :: 0 <= i < |polls| ==> polls[i].focus.id == previousFocus.id && polls[i].keys == polls[0].keys
    ensures RunOutput(previousFocus, previousKeys, polls, keychars, printUp) == [Lookup(keychars, k)[0]]
  {
    SingleChangeOutput(polls[0].keys, previousKeys, k, keychars, printUp);
    RunQuiet(previousFocus, polls[0].keys, polls[1..], keychars, printUp);
  }

  /** What each iteration of a run prints, one entry per poll. */
  function Iterations(previousFocus: Window, previousKeys: Keymap, polls: seq<Poll>,
                      keychars: map<int, seq<string>>, printUp: bool): (steps: seq<seq<string>>)
    ensures |steps| == |polls|
    decreases |polls|
  {
    if polls == [] then []
    else
      [StepOutput(previousFocus, previousKeys, polls[0], keychars, printUp)]
      + Iterations(FocusNext(previousFocus, polls[0].focus), polls[0].keys, polls[1..], keychars, printUp)
  }

  /** Lines printed by consecutive iterations, one after another. */
  function Flatten(steps: seq<seq<string>>): seq<string>
  {
    if steps == [] then [] else steps[0] + Flatten(steps[1..])
  }

  /** A run prints what its iterations print, in order. */
  lemma {:induction false} RunIsIterations(previousFocus: Window, previousKeys: Keymap, polls: seq<Poll>,
                                           keychars: map<int, seq<string>>, printUp: bool)
    ensures RunOutput(previousFocus, previousKeys, polls, keychars, printUp)
         == Flatten(Iterations(previousFocus, previousKeys, polls, keychars, printUp))
    decreases |polls|
  {
    if polls != [] {
      var steps := Iterations(previousFocus, previousKeys, polls, keychars, printUp);
      RunIsIterations(FocusNext(previousFocus, polls[0].focus), polls[0].keys, polls[1..], keychars, printUp);
      assert steps[1..] == Iterations(FocusNext(previousFocus, polls[0].focus), polls[0].keys, polls[1..], keychars, printUp);
    }
  }

  /**
   * Iteration i compares poll i's keymap with the one queried just before it
   * (the remembered keymap for the first), under the window remembered after
   * the earlier polls.
   */
  lemma {:induction false} IterationAt(previousFocus: Window, previousKeys: Keymap, polls: seq<Poll>, i: nat,
                                       keychars: map<int, seq<string>>, printUp: bool)
    requires i < |polls|
    ensures Iterations(previousFocus, previousKeys, polls, keychars, printUp)[i]
         == StepOutput(After(previousFocus, previousKeys, polls[..i]).0,
                       if i == 0 then previousKeys else polls[i - 1].keys, polls[i], keychars, printUp)
    decreases i
  {
    var next := FocusNext(previousFocus, polls[0].focus);
    if i == 0 {
      assert polls[..0] == [];
    } else {
      IterationAt(next, polls[0].keys, polls[1..], i - 1, keychars, printUp);
      IterationsTail(previousFocus, previousKeys, polls, i, keychars, printUp);
      AfterFirst(previousFocus, previousKeys, polls, i);
      var keysBefore := if i - 1 == 0 then polls[0].keys else polls[1..][i - 2].keys;
      assert keysBefore == polls[i - 1].keys;
    }
  }

  /** Iteration i of a run is iteration i - 1 of the run from the second poll on. */
  lemma IterationsTail(previousFocus: Window, previousKeys: Keymap, polls: seq<Poll>, i: nat,
                       keychars: map<int, seq<string>>, printUp: bool)
    requires 0 < i < |polls|
    ensures Iterations(previousFocus, previousKeys, polls, keychars, printUp)[i]
         == Iterations(FocusNext(previousFocus, polls[0].focus), polls[0].keys, polls[1..], keychars, printUp)[i - 1]
  {
  }

  /** The state after the first i polls, seen from after the first poll. */
  lemma AfterFirst(previousFocus: Window, previousKeys: Keymap, polls: seq<Poll>, i: nat)
    requires 0 < i <= |polls|
    ensures After(previousFocus, previousKeys, polls[..i])
         == After(FocusNext(previousFocus, polls[0].focus), polls[0].keys, polls[1..][..i - 1])
  {
    assert polls[..i][0] == polls[0] && polls[..i][1..] == polls[1..][..i - 1];
  }

  /**
   * Every iteration after the first prints the focus banner, if any, and the
   * renderings of the edges between the keymap of the poll before it and its
   * own.
   */
  lemma LaterIterations(previousFocus: Window, previousKeys: Keymap, polls: seq<Poll>,
                        keychars: map<int, seq<string>>, printUp: bool)
    ensures forall i :: 1 <= i < |polls| ==>
      Iterations(previousFocus, previousKeys, polls, keychars, printUp)[i]
      == FocusOutput(After(previousFocus, previousKeys, polls[..i]).0, polls[i].focus)
         + RenderEdges(Edges(polls[i].keys, polls[i - 1].keys), keychars, printUp)
  {
    forall i | 1 <= i < |polls|
      ensures Iterations(previousFocus, previousKeys, polls, keychars, printUp)[i]
        == FocusOutput(After(previousFocus, previousKeys, polls[..i]).0, polls[i].focus)
           + RenderEdges(Edges(polls[i].keys, polls[i - 1].keys), keychars, printUp)
    {
      IterationAt(previousFocus, previousKeys, polls, i, keychars, printUp);
    }
  }

  /** No edge between `previous` and `keys` is at keycode k. */
  predicate NoEdgeAt(keys: Keymap, previous: Keymap, k: nat)
  {
    forall e :: e in Edges(keys, previous) ==> e.keycode != k
  }

  /**
   * A key held at every sample of a run takes part in no edge after the
   * first iteration, whatever the other keys and the focus do: iteration i
   * (i >= 1) prints the focus banner, if any, and the renderings of edges
   * between polls i - 1 and i, none of them at keycode k.  If the key was up
   * before the run, the first iteration reports its press.
   */
  lemma HeldKeyReportedOnce(previousFocus: Window, previousKeys: Keymap, polls: seq<Poll>, k: nat,
                            keychars: map<int, seq<string>>, printUp: bool)
    requires k < KeycodeCount
    requires forall i :: 0 <= i < |polls| ==> Pressed(polls[i].keys, k)
    ensures forall i :: 1 <= i < |polls| ==>
      Iterations(previousFocus, previousKeys, polls, keychars, printUp)[i]
      == FocusOutput(After(previousFocus, previousKeys, polls[..i]).0, polls[i].focus)
         + RenderEdges(Edges(polls[i].keys, polls[i - 1].keys), keychars, printUp)
    ensures forall i :: 1 <= i < |polls| ==> NoEdgeAt(polls[i].keys, polls[i - 1].keys, k)
    ensures polls != [] && !Pressed(previousKeys, k) ==> Edge(k, true) in Edges(polls[0].keys, previousKeys)
  {
    LaterIterations(previousFocus, previousKeys, polls, keychars, printUp);
    forall i | 1 <= i < |polls|
      ensures NoEdgeAt(polls[i].keys, polls[i - 1].keys, k)
    {
      EdgesAreChanges(polls[i].keys, polls[i - 1].keys, KeycodeCount);
    }
    if polls != [] {
      EdgesAreChanges(polls[0].keys, previousKeys, KeycodeCount);
    }
  }

  /**
   * From the second iteration on, a focus banner is printed exactly when the
   * focused id differs from the one of the previous poll.
   */
  lemma BannerWhenFocusMoves(previousFocus: Window, previousKeys: Keymap, polls: seq<Poll>,
                             keychars: map<int, seq<string>>, printUp: bool)
    ensures forall i :: 1 <= i < |polls| ==>
      Iterations(previousFocus, previousKeys, polls, keychars, printUp)[i]
      == (if polls[i].focus.id != polls[i - 1].focus.id then [Banner("\n\n", polls[i].focus)] else [])
         + RenderEdges(Edges(polls[i].keys, polls[i - 1].keys), keychars, printUp)
  {
    LaterIterations(previousFocus, previousKeys, polls, keychars, printUp);
    forall i | 1 <= i < |polls|
      ensures After(previousFocus, previousKeys, polls[..i]).0.id == polls[i - 1].focus.id
    {
      AfterRemembersLast(previousFocus, previousKeys, polls[..i]);
    }
  }

  /**
   * The first iteration prints a change banner only if the focus moved away
   * from the window announced in the opening lines.
   */
  lemma FirstIterationBanner(initialFocus: Window, poll: Poll, keychars: map<int, seq<string>>, printUp: bool)
    ensures poll.focus.id == initialFocus.id ==>
      StepOutput(initialFocus, NoKeysHeld, poll, keychars, printUp) == ScanOutput(poll.keys, NoKeysHeld, keychars, printUp)
    ensures poll.focus.id != initialFocus.id ==>
      StepOutput(initialFocus, NoKeysHeld, poll, keychars, printUp)
      == [Banner("\n\n", poll.focus)] + ScanOutput(poll.keys, NoKeysHeld, keychars, printUp)
  {
    assert [] + ScanOutput(poll.keys, NoKeysHeld, keychars, printUp) == ScanOutput(poll.keys, NoKeysHeld, keychars, printUp);
  }

  /**
   * With releases not printed and the table built from the registry, every
   * line a sample prints is a registry label or the "unsupported" diagnostic.
   */
  lemma ScanPrintsLabelsOrDiagnostics(keys: Keymap, previous: Keymap,
                                      stringToKeysym: string -> int, keysymToKeycode: int -> int)
    ensures var keychars := Keychars(Bindings(Registry(), stringToKeysym, keysymToKeycode));
      forall t :: t in ScanOutput(keys, previous, keychars, false) ==>
        (exists j :: 0 <= j < |Registry()| && Registry()[j].display == t)
        || (exists k: nat :: t == Unsupported(k))
  {
    ScanPrintsEntryLabels(keys, previous, Registry(), stringToKeysym, keysymToKeycode);
  }

  /** The same for a table built from any list of entries. */
  lemma ScanPrintsEntryLabels(keys: Keymap, previous: Keymap, entries: seq<KeyEntry>,
                              stringToKeysym: string -> int, keysymToKeycode: int -> int)
    ensures var keychars := Keychars(Bindings(entries, stringToKeysym, keysymToKeycode));
      forall t :: t in ScanOutput(keys, previous, keychars, false) ==>
        (exists j :: 0 <= j < |entries| && entries[j].display == t)
        || (exists k: nat :: t == Unsupported(k))
  {
    var bs := Bindings(entries, stringToKeysym, keysymToKeycode);
    var keychars := Keychars(bs);
    TokensComeFromEdges(Edges(keys, previous), keychars, false);
    forall t | t in ScanOutput(keys, previous, keychars, false)
      ensures (exists j :: 0 <= j < |entries| && entries[j].display == t)
        || (exists k: nat :: t == Unsupported(k))
    {
      var e :| e in Edges(keys, previous) && e.pressed && RenderEdge(e, keychars, false) == [t];
      var labels := Lookup(keychars, e.keycode);
      if labels != [] {
        assert t == labels[0];
        assert t in LabelsAt(bs, e.keycode);
        LabelsAtMembers(bs, e.keycode, t);
        var j :| 0 <= j < |bs| && bs[j] == Binding(t, e.keycode);
        assert entries[j].display == t;
      } else {
        assert t == Unsupported(e.keycode);
      }
    }
  }

  /**
   * Typing one key with releases printed: pressing and then releasing a
   * keycode that has a label prints the label and then the label in
   * parentheses, and nothing else.
   */
  lemma TypingOneKey(w: Window, k: nat, keychars: map<int, seq<string>>)
    requires k < KeycodeCount && Lookup(keychars, k) != []
    ensures RunOutput(w, NoKeysHeld, [Poll(w, WithKey(NoKeysHeld, k)), Poll(w, NoKeysHeld)], keychars, true)
      == [Lookup(keychars, k)[0], "(" + Lookup(keychars, k)[0] + ")"]
  {
    var name := Lookup(keychars, k)[0];
    var down := WithKey(NoKeysHeld, k);
    assert !Pressed(NoKeysHeld, k);
    SingleChangeOutput(down, NoKeysHeld, k, keychars, true);
    SingleChangeOutput(NoKeysHeld, down, k, keychars, true);
    var polls := [Poll(w, down), Poll(w, NoKeysHeld)];
    assert StepOutput(w, NoKeysHeld, polls[0], keychars, true) == [name];
    assert StepOutput(w, down, polls[1], keychars, true) == ["(" + name + ")"];
    assert polls[1..] == [Poll(w, NoKeysHeld)] && polls[1..][1..] == [];
    assert RunOutput(w, down, polls[1..], keychars, true) == ["(" + name + ")"] + [];
    assert RunOutput(w, NoKeysHeld, polls, keychars, true) == [name] + ["(" + name + ")"];
  }

  /**
   * Holding a key across two samples: an idle sample, two samples with the
   * key down and an idle sample again print the label once and its release
   * once; the repeated sample prints nothing.
   */
  lemma HoldingOneKey(w: Window, k: nat, keychars: map<int, seq<string>>)
    requires k < KeycodeCount && Lookup(keychars, k) != []
    ensures RunOutput(w, NoKeysHeld, [Poll(w, NoKeysHeld), Poll(w, WithKey(NoKeysHeld, k)),
                                      Poll(w, WithKey(NoKeysHeld, k)), Poll(w, NoKeysHeld)], keychars, true)
      == [Lookup(keychars, k)[0], "(" + Lookup(keychars, k)[0] + ")"]
  {
    var name := Lookup(keychars, k)[0];
    var down := WithKey(NoKeysHeld, k);
    var polls := [Poll(w, NoKeysHeld), Poll(w, down), Poll(w, down), Poll(w, NoKeysHeld)];
    IdenticalKeymapsSilent(NoKeysHeld, KeycodeCount, keychars, true);
    IdenticalKeymapsSilent(down, KeycodeCount, keychars, true);
    assert StepOutput(w, NoKeysHeld, polls[0], keychars, true) == [];
    assert StepOutput(w, down, polls[2], keychars, true) == [];
    assert polls[1..] == [Poll(w, down), Poll(w, down), Poll(w, NoKeysHeld)];
    assert polls[1..][1..] == [Poll(w, down), Poll(w, NoKeysHeld)];
    assert polls[1..][1..][1..] == [Poll(w, NoKeysHeld)];
    TypingOneKey(w, k, keychars);
    assert RunOutput(w, down, polls[1..][1..], keychars, true)
      == RunOutput(w, down, polls[1..][1..][1..], keychars, true);
    assert RunOutput(w, NoKeysHeld, polls[1..], keychars, true)
      == RunOutput(w, NoKeysHeld, [Poll(w, down), Poll(w, NoKeysHeld)], keychars, true);
  }

  /** The key labelled "a" on keycode 38, held across two samples, prints "a" and then "(a)". */
  lemma HoldingA(w: Window)
    ensures RunOutput(w, NoKeysHeld, [Poll(w, NoKeysHeld), Poll(w, WithKey(NoKeysHeld, 38)),
                                      Poll(w, WithKey(NoKeysHeld, 38)), Poll(w, NoKeysHeld)], map[38 := ["a"]], true)
      == ["a", "(a)"]
  {
    HoldingOneKey(w, 38, map[38 := ["a"]]);
    assert "(" + "a" + ")" == "(a)";
  }

  /** The key labelled "a" on keycode 38: typing it prints "a" and then "(a)". */
  lemma TypingA(w: Window)
    ensures RunOutput(w, NoKeysHeld, [Poll(w, WithKey(NoKeysHeld, 38)), Poll(w, NoKeysHeld)], map[38 := ["a"]], true)
      == ["a", "(a)"]
  {
    TypingOneKey(w, 38, map[38 := ["a"]]);
    assert "(" + "a" + ")" == "(a)";
  }
}
