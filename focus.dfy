/**
 * The focus tracker of the capture loop (pyX11spy.py:174, 179-182, 190-197).
 * It remembers the window that last had the input focus and prints a banner
 * naming the window, by hexadecimal id and title, whenever a window with a
 * different id takes the focus.
 */
module Focus {
  import opened Numerals

  /** A window as the loop sees it: its id, and its title ("" when it has none). */
  datatype Window = Window(id: nat, title: string)

  /** What a banner shows after the id: the title, or a stand-in when there is none. */
  function Caption(w: Window): string
  {
    if w.title != "" then w.title else "No Window Title"
  }

  /**
   * "[0x1a2b title]" on its own line, after the leading newlines `lead`: the
   * text opens with `lead` and "[0x", and closes with "]" and the newline
   * print adds.
   */
  function Banner(lead: string, w: Window): (b: string)
    ensures |b| > |lead| + 3 + 2
    ensures b[..|lead|] == lead && b[|lead|..|lead| + 3] == "[0x"
    ensures b[|b| - 2..] == "]\n"
  {
    var h := Hex(w.id);
    var b := lead + "[" + h + " " + Caption(w) + "]\n";
    assert b[|lead|..|lead| + 3] == "[" + h[..2];
    b
  }

  /**
   * What the tracker prints when `focus` is queried and `previous` was
   * remembered: one banner for the focused window when the id changed, and
   * nothing otherwise.
   */
  function FocusOutput(previous: Window, focus: Window): (out: seq<string>)
    ensures out != [] <==> focus.id != previous.id
    ensures out != [] ==> out == [Banner("\n\n", focus)]
  {
    if focus.id != previous.id then [Banner("\n\n", focus)] else []
  }

  /**
   * The window the tracker remembers afterwards: always one with the focused
   * id, and the old one kept unless the id changed.
   */
  function FocusNext(previous: Window, focus: Window): (next: Window)
    ensures next.id == focus.id
    ensures next == previous || next == focus
    ensures focus.id == previous.id ==> next == previous
  {
    if focus.id != previous.id then focus else previous
  }

  /** Querying again while the same window keeps the focus prints nothing and changes nothing. */
  lemma FocusSettles(previous: Window, focus: Window)
    ensures FocusOutput(FocusNext(previous, focus), focus) == []
    ensures FocusNext(FocusNext(previous, focus), focus) == FocusNext(previous, focus)
  {
  }

  /** The banner names its window: the hexadecimal number after "[0x" reads back as the id. */
  lemma BannerNamesWindow(lead: string, w: Window)
    ensures NumberAt(Banner(lead, w), |lead| + 3, 16) == w.id
  {
    var prefix, rest := lead + "[0x", Caption(w) + "]\n";
    assert Banner(lead, w) == prefix + Digits(w.id, 16) + " " + rest;
    NumberAtDigits(prefix, w.id, 16, rest);
  }

  /**
   * Between the space after the id and the closing "]" the banner shows the
   * title, or "No Window Title" for a window without one.
   */
  lemma BannerShowsCaption(lead: string, w: Window)
    ensures var b := Banner(lead, w);
      var start := |lead| + 3 + |Digits(w.id, 16)| + 1;
      start <= |b| - 2 && b[start..|b| - 2] == (if w.title != "" then w.title else "No Window Title")
  {
    var b := Banner(lead, w);
    var start := |lead| + 3 + |Digits(w.id, 16)| + 1;
    assert b == (lead + "[0x" + Digits(w.id, 16) + " ") + Caption(w) + "]\n";
    assert b[start..|b| - 2] == Caption(w);
  }
}
