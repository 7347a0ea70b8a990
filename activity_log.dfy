/**
 * The on-screen activity log of app.js (`addLogMessage`, app.js:8-19): every
 * message becomes an HTML entry `<span class="TYPE">[TIME] MSG</span>`, entries
 * are kept in arrival order, at most 25 of them, the oldest dropped first, and
 * the panel shows them joined with `<br>`.
 */
module ActivityLog {
  import opened Text

  /** The number of entries the panel keeps (app.js:13). */
  const Capacity: nat := 25

  /** What the panel places between two entries (app.js:16). */
  const Separator: string := "<br>"

  const Open: string := "<span class=\""
  const Close: string := "</span>"

  /**
   * The entry text for one message (app.js:9-10). `kind` is the CSS class of
   * the entry and defaults to the empty string, as in the source.
   */
  function Format(timestamp: string, msg: string, kind: string := ""): string
  {
    Open + kind + "\">[" + timestamp + "] " + msg + Close
  }

  /** The arguments of one `addLogMessage` call with its time: the three parts an entry is made of. */
  datatype Fields = Fields(timestamp: string, msg: string, kind: string)

  /** A kind and a timestamp that can be read back unambiguously from an entry. */
  predicate Readable(f: Fields)
  {
    '"' !in f.kind && ']' !in f.timestamp
  }

  /** `s` without the leading `pre`, if it starts with it. */
  function StripPrefix(s: string, pre: string): (r: Option<string>)
    ensures r.Some? ==> s == pre + r.value
  {
    if |pre| <= |s| && s[..|pre|] == pre then Some(s[|pre|..]) else None
  }

  lemma StripPrefixOf(pre: string, x: string)
    ensures StripPrefix(pre + x, pre) == Some(x)
  {
    assert (pre + x)[..|pre|] == pre;
    assert (pre + x)[|pre|..] == x;
  }

  /** `s` without the trailing `post`, if it ends with it. */
  function StripSuffix(s: string, post: string): (r: Option<string>)
    ensures r.Some? ==> s == r.value + post
  {
    if |post| <= |s| && s[|s| - |post|..] == post then Some(s[..|s| - |post|]) else None
  }

  lemma StripSuffixOf(x: string, post: string)
    ensures StripSuffix(x + post, post) == Some(x)
  {
    assert (x + post)[|x|..] == post;
    assert (x + post)[..|x|] == x;
  }

  /** What comes before and after the first `c` in `s`, if there is one. */
  function SplitAtChar(s: string, c: char): (r: Option<(string, string)>)
    ensures r.None? <==> c !in s
    ensures r.Some? ==> s == r.value.0 + [c] + r.value.1 && c !in r.value.0
  {
    if |s| == 0 then None
    else if s[0] == c then Some(([], s[1..]))
    else
      match SplitAtChar(s[1..], c)
      case None => None
      case Some(p) => Some(([s[0]] + p.0, p.1))
  }

  /** Splitting `a + [c] + b` at `c` gives back `a` and `b` when `a` does not hold `c`. */
  lemma {:induction false} SplitAtCharOf(a: string, c: char, b: string)
    requires c !in a
    ensures SplitAtChar(a + [c] + b, c) == Some((a, b))
  {
    var s := a + [c] + b;
    if |a| > 0 {
      assert s[1..] == a[1..] + [c] + b;
      SplitAtCharOf(a[1..], c, b);
      assert [a[0]] + a[1..] == a;
    }
  }

  /** Reads an entry back into its parts; None for text no Format produces. */
  function Parse(s: string): Option<Fields>
  {
    match StripPrefix(s, Open)
    case None => None
    case Some(s1) =>
      match StripSuffix(s1, Close)
      case None => None
      case Some(body) =>
        match SplitAtChar(body, '"')
        case None => None
        case Some(kindSplit) =>
          match StripPrefix(kindSplit.1, ">[")
          case None => None
          case Some(s2) =>
            match SplitAtChar(s2, ']')
            case None => None
            case Some(timeSplit) =>
              match StripPrefix(timeSplit.1, " ")
              case None => None
              case Some(msg) => Some(Fields(timeSplit.0, msg, kindSplit.0))
  }

  /** An entry as the nested concatenation Parse takes apart. */
  lemma FormatPieces(timestamp: string, msg: string, kind: string)
    ensures Format(timestamp, msg, kind) == Open + (kind + "\"" + (">[" + (timestamp + "]" + (" " + msg)))) + Close
  {
    var tail := " " + msg;
    var afterTime := timestamp + "]" + tail;
    var afterKind := ">[" + afterTime;
    var body := kind + "\"" + afterKind;
    assert Format(timestamp, msg, kind) == Open + (body + Close);
  }

  /** Every entry with a readable kind and timestamp reads back to its parts. */
  lemma ParseFormat(f: Fields)
    requires Readable(f)
    ensures Parse(Format(f.timestamp, f.msg, f.kind)) == Some(f)
  {
    var tail := " " + f.msg;
    var afterTime := f.timestamp + "]" + tail;
    var afterKind := ">[" + afterTime;
    var body := f.kind + "\"" + afterKind;
    assert Format(f.timestamp, f.msg, f.kind) == Open + (body + Close);
    StripPrefixOf(Open, body + Close);
    assert StripPrefix(Format(f.timestamp, f.msg, f.kind), Open) == Some(body + Close);
    StripSuffixOf(body, Close);
    SplitAtCharOf(f.kind, '"', afterKind);
    StripPrefixOf(">[", afterTime);
    SplitAtCharOf(f.timestamp, ']', tail);
    StripPrefixOf(" ", f.msg);
  }

  /** Whatever Parse accepts is exactly the entry Format makes of its result. */
  lemma FormatParse(s: string)
    requires Parse(s).Some?
    ensures Readable(Parse(s).value)
    ensures Format(Parse(s).value.timestamp, Parse(s).value.msg, Parse(s).value.kind) == s
  {
    var s1 := StripPrefix(s, Open).value;
    var body := StripSuffix(s1, Close).value;
    var kindSplit := SplitAtChar(body, '"').value;
    var s2 := StripPrefix(kindSplit.1, ">[").value;
    var timeSplit := SplitAtChar(s2, ']').value;
    var msg := StripPrefix(timeSplit.1, " ").value;
    assert Parse(s).value == Fields(timeSplit.0, msg, kindSplit.0);
    var inner := kindSplit.0 + "\"" + (">[" + (timeSplit.0 + "]" + (" " + msg)));
    assert body == inner;
    assert s == Open + (inner + Close);
    FormatPieces(timeSplit.0, msg, kindSplit.0);
    ConcatAssoc(Open, inner, Close);
  }

  /**
   * The log after one `addLogMessage` (app.js:11-15): the entry is pushed and,
   * when that makes more than Capacity entries, the oldest one is shifted off.
   */
  function Push(logs: seq<string>, entry: string): (r: seq<string>)
    ensures |logs| < Capacity ==> r == logs + [entry]
    ensures |logs| >= Capacity ==> r == logs[1..] + [entry]
    ensures |logs| <= Capacity ==> |r| <= Capacity
  {
    var grown := logs + [entry];
    if |grown| > Capacity then
      assert grown[1..] == logs[1..] + [entry];
      grown[1..]
    else
      grown
  }

  /** The last min(n, Capacity) of the n entries ever appended, in order. */
  function Retained(history: seq<string>): (r: seq<string>)
    ensures |r| <= Capacity && |r| <= |history|
    ensures |r| == |history| || |r| == Capacity
    ensures r == history[|history| - |r|..]
  {
    if |history| <= Capacity then history else history[|history| - Capacity..]
  }

  /** One push on the retained window is the window of the longer history. */
  lemma RetainedPush(history: seq<string>, entry: string)
    ensures Push(Retained(history), entry) == Retained(history + [entry])
  {
    var h' := history + [entry];
    if |history| >= Capacity {
      assert Retained(history) == history[|history| - Capacity..];
      assert h'[|h'| - Capacity..] == history[|history| - Capacity + 1..] + [entry];
      assert (history[|history| - Capacity..] + [entry])[1..] == history[|history| - Capacity + 1..] + [entry];
    }
  }

  /** The log after appending `entries` one by one to an empty log. */
  function Replay(entries: seq<string>): seq<string>
  {
    if |entries| == 0 then [] else Push(Replay(entries[..|entries| - 1]), entries[|entries| - 1])
  }

  /** After n appends e1..en the log holds exactly e(max(1, n-24))..en. */
  lemma {:induction false} ReplayRetained(entries: seq<string>)
    ensures Replay(entries) == Retained(entries)
  {
    if |entries| > 0 {
      var init, last := entries[..|entries| - 1], entries[|entries| - 1];
      assert init + [last] == entries;
      calc {
        Replay(entries);
        Push(Replay(init), last);
        { ReplayRetained(init); }
        Push(Retained(init), last);
        { RetainedPush(init, last); }
        Retained(entries);
      }
    }
  }

  /** Thirty appends leave appends #6 through #30. */
  lemma ThirtyAppends(entries: seq<string>)
    requires |entries| == 30
    ensures Replay(entries) == entries[5..]
  {
    ReplayRetained(entries);
  }

  /** The panel text fed to `innerHTML` (app.js:16). */
  function Render(entries: seq<string>): string
  {
    Join(entries, Separator)
  }

  /** `<br>` first occurs in `e + "<br>" + rest` right after `e` when `e` does not hold it. */
  lemma FirstSeparatorAfter(e: string, rest: string)
    requires !Contains(e, Separator)
    ensures IndexOf(e + Separator + rest, Separator) == Some(|e|)
  {
    var s := e + Separator + rest;
    assert OccursAt(s, Separator, |e|) by { assert s[|e|..|e| + 4] == Separator; }
    forall j: nat | j < |e| ensures !OccursAt(s, Separator, j) {
      if j + 4 <= |e| {
        assert s[j..j + 4] == e[j..j + 4];
        assert !OccursAt(e, Separator, j);
      } else if j + 4 <= |s| {
        // the window at j holds the '<' of the separator at offset |e| - j > 0,
        // where "<br>" has no '<'
        assert s[j..j + 4][|e| - j] == '<';
      }
    }
    FirstOccurrence(s, Separator, |e|);
  }

  /** The panel can be split back into its entries when none holds `<br>`. */
  lemma {:induction false} SplitRender(entries: seq<string>)
    requires |entries| > 0
    requires forall k :: 0 <= k < |entries| ==> !Contains(entries[k], Separator)
    ensures Split(Render(entries), Separator) == entries
  {
    if |entries| == 1 {
      assert IndexOf(entries[0], Separator).None?;
    } else {
      var e := entries[0];
      var tail := Render(entries[1..]);
      assert Render(entries) == e + Separator + tail;
      FirstSeparatorAfter(e, tail);
      assert (e + Separator + tail)[..|e|] == e;
      assert (e + Separator + tail)[|e| + |Separator|..] == tail;
      SplitRender(entries[1..]);
      assert entries == [e] + entries[1..];
    }
  }

  /**
   * The panel after an append: the new entry alone on an empty log; below
   * capacity the old text, a `<br>` and the new entry; at capacity the text
   * of all but the oldest entry, a `<br>` and the new entry.
   */
  lemma RenderAppend(entries: seq<string>, entry: string)
    ensures |entries| == 0 ==> Render(Push(entries, entry)) == entry
    ensures 0 < |entries| < Capacity ==> Render(Push(entries, entry)) == Render(entries) + Separator + entry
    ensures |entries| >= Capacity ==> Render(Push(entries, entry)) == Render(entries[1..]) + Separator + entry
  {
    if |entries| == 0 {
      assert Push(entries, entry) == [entry];
    } else if |entries| < Capacity {
      JoinSnoc(entries, entry, Separator);
    } else {
      JoinSnoc(entries[1..], entry, Separator);
    }
  }

  /** The entry text of each call, in order. */
  function Entries(calls: seq<Fields>): (r: seq<string>)
    ensures |r| == |calls|
    ensures forall k :: 0 <= k < |calls| ==> r[k] == Format(calls[k].timestamp, calls[k].msg, calls[k].kind)
  {
    seq(|calls|, k requires 0 <= k < |calls| => Format(calls[k].timestamp, calls[k].msg, calls[k].kind))
  }

  /**
   * The captured `logs` array of app.js:5 together with `addLogMessage`.
   * `calls` records the arguments of every call ever made, with the time of
   * the call; `entries` holds the entry texts of the last of them.
   */
  class Log {
    var entries: seq<string>
    ghost var calls: seq<Fields>

    /** `entries` is the window of the last min(n, Capacity) of the n calls, rendered. */
    ghost predicate Valid()
      reads this
    {
      && |entries| == (if |calls| <= Capacity then |calls| else Capacity)
      && forall k :: 0 <= k < |entries| ==>
           var c := calls[|calls| - |entries| + k]; entries[k] == Format(c.timestamp, c.msg, c.kind)
    }

    /** The entries are the retained part of the entry texts of all calls. */
    lemma Window()
      requires Valid()
      ensures entries == Retained(Entries(calls))
    {
    }

    constructor ()
      ensures Valid() && entries == [] && calls == []
    {
      entries := [];
      calls := [];
    }

    /**
     * addLogMessage(msg, kind) with the time of the call supplied as
     * `timestamp` (app.js:8-16).
     */
    method Append(timestamp: string, msg: string, kind: string := "")
      requires Valid()
      modifies this
      ensures Valid()
      ensures calls == old(calls) + [Fields(timestamp, msg, kind)]
      ensures entries == Push(old(entries), Format(timestamp, msg, kind))
      ensures |entries| <= Capacity
    {
      var entry := Format(timestamp, msg, kind);
      entries := entries + [entry];
      if |entries| > Capacity {
        entries := entries[1..];
      }
      calls := calls + [Fields(timestamp, msg, kind)];
    }

    /** The panel text after the last append. */
    function View(): string
      reads this
    {
      Render(entries)
    }
  }
}
