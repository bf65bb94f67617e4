/** The shared scratchpad file and its archive (`internal/state/scratchpad.go`). The JSON encoder and the
    Markdown rendering are parameters. */
module Scratchpads {
  import opened Text

  const MAX_ENTRIES := 50
  const OPEN := "<!-- scratchpad-json\n"
  const CLOSE := "\n-->"
  const HEADING := "\n\n# Team Scratchpad\n\n*Auto-generated. Edit via API or agent calls.*\n\n"
  const NO_ENTRIES := "*No entries yet.*\n"

  datatype Entry = Entry(agentID: string, kind: string, message: string, taskID: string, timestamp: int)

  /** A missing, malformed or undecodable block, or the entries. */
  datatype ReadResult = Corrupt | Entries(entries: seq<Entry>)

  datatype Codec = Codec(encode: seq<Entry> -> string, decode: string -> Option<seq<Entry>>, render: seq<Entry> -> string)

  // ---------- Text search ----------

  /** strings.Index */
  function IndexOf(s: string, p: string): Option<nat> {
    if HasPrefix(s, p) then Some(0)
    else if s == "" then None
    else match IndexOf(s[1..], p) { case None => None case Some(i) => Some(i + 1) }
  }

  /** The result is the first occurrence. */
  lemma {:induction false} IndexOfIsFirst(s: string, p: string)
    ensures IndexOf(s, p).None? ==> forall i :: 0 <= i <= |s| ==> !HasPrefix(s[i..], p)
    ensures IndexOf(s, p).Some? ==>
      var k := IndexOf(s, p).value;
      k <= |s| && HasPrefix(s[k..], p) && forall i :: 0 <= i < k ==> !HasPrefix(s[i..], p)
  {
    assert s[0..] == s;
    if HasPrefix(s, p) || s == "" {
    } else {
      IndexOfIsFirst(s[1..], p);
      assert forall i :: 0 < i <= |s| ==> s[i..] == s[1..][i - 1..];
    }
  }

  // ---------- The file ----------

  function FileText(raw: string, tail: string): string {
    OPEN + raw + CLOSE + tail
  }

  /** The text between the markers. */
  function ExtractRaw(content: string): Option<string> {
    match IndexOf(content, OPEN)
    case None => Some("")
    case Some(at) =>
      if at + |OPEN| > |content| then None
      else
        var rest := content[at + |OPEN|..];
        match IndexOf(rest, CLOSE) { case None => None case Some(end) => if end <= |rest| then Some(rest[..end]) else None }
  }

  function Decoded(codec: Codec, raw: string): ReadResult {
    if TrimSpace(raw) == "null" || TrimSpace(raw) == "" then Entries([])
    else match codec.decode(raw) { case None => Corrupt case Some(es) => Entries(es) }
  }

  /** extractJSON */
  function Extracted(codec: Codec, content: string): ReadResult {
    match ExtractRaw(content) { case None => Corrupt case Some(raw) => Decoded(codec, raw) }
  }

  /** flush */
  function Flushed(codec: Codec, es: seq<Entry>): string {
    FileText(codec.encode(es), HEADING + (if es == [] then NO_ENTRIES else codec.render(es)))
  }

  /** The closing marker cannot straddle the end of the text it closes. */
  lemma NoStraddle(raw: string, tail: string, i: nat)
    requires i < |raw| && HasPrefix((raw + CLOSE + tail)[i..], CLOSE)
    ensures HasPrefix(raw[i..], CLOSE)
  {
    var whole := raw + CLOSE + tail;
    var n := |raw|;
    assert forall k :: 0 <= k < 4 ==> whole[i + k] == CLOSE[k];
    assert whole[n] == '\n';
    assert whole[i + 1] == '-' && whole[i + 2] == '-' && whole[i + 3] == '>';
    assert n != i + 1 && n != i + 2 && n != i + 3;
    assert raw[i..][..4] == whole[i..][..4];
  }

  lemma Split3(raw: string, tail: string)
    ensures IndexOf(FileText(raw, tail), OPEN) == Some(0)
    ensures FileText(raw, tail)[|OPEN|..] == raw + CLOSE + tail
  {
    var content := FileText(raw, tail);
    assert content[..|OPEN|] == OPEN;
  }

  lemma CloseAtEnd(raw: string, tail: string)
    ensures HasPrefix((raw + CLOSE + tail)[|raw|..], CLOSE)
  {
    var whole := raw + CLOSE + tail;
    assert whole[|raw|..] == CLOSE + tail;
    assert (CLOSE + tail)[..|CLOSE|] == CLOSE;
  }

  lemma NoEarlyClose(raw: string, tail: string, i: nat)
    requires i < |raw| && !HasPrefix((raw + CLOSE + tail)[i..], CLOSE)
    ensures !HasPrefix(raw[i..], CLOSE)
  {
    if i + 4 <= |raw| {
      assert (raw + CLOSE + tail)[i..][..4] == raw[i..][..4];
    }
  }

  /** The first closing marker is the one after `raw` when `raw` has none, and an earlier one otherwise. */
  lemma CloseIsFirst(raw: string, tail: string)
    requires forall i :: 0 <= i < |raw| ==> !HasPrefix(raw[i..], CLOSE)
    ensures IndexOf(raw + CLOSE + tail, CLOSE) == Some(|raw|)
  {
    var rest := raw + CLOSE + tail;
    IndexOfIsFirst(rest, CLOSE);
    CloseAtEnd(raw, tail);
    var k := IndexOf(rest, CLOSE).value;
    if k < |raw| {
      NoStraddle(raw, tail, k);
    }
  }

  lemma CloseIsEarly(raw: string, tail: string, i: nat)
    requires i < |raw| && HasPrefix(raw[i..], CLOSE)
    ensures IndexOf(raw + CLOSE + tail, CLOSE).Some? && IndexOf(raw + CLOSE + tail, CLOSE).value < |raw|
  {
    IndexOfIsFirst(raw + CLOSE + tail, CLOSE);
    if !HasPrefix((raw + CLOSE + tail)[i..], CLOSE) {
      NoEarlyClose(raw, tail, i);
    }
  }

  /** The text found ends at the first closing marker. */
  lemma ExtractedUpTo(raw: string, tail: string)
    ensures
      var rest := raw + CLOSE + tail;
      ExtractRaw(FileText(raw, tail)) == match IndexOf(rest, CLOSE) { case None => None case Some(k) => if k <= |rest| then Some(rest[..k]) else None }
  {
    Split3(raw, tail);
    IndexOfIsFirst(raw + CLOSE + tail, CLOSE);
  }

  lemma RawIsPrefix(raw: string, tail: string)
    ensures (raw + CLOSE + tail)[..|raw|] == raw
  {
  }

  /** What stands between the markers is found again exactly when it does not contain the closing marker itself. */
  lemma RawRoundTripIff(raw: string, tail: string)
    ensures ExtractRaw(FileText(raw, tail)) == Some(raw) <==> forall i :: 0 <= i < |raw| ==> !HasPrefix(raw[i..], CLOSE)
  {
    ExtractedUpTo(raw, tail);
    if i :| 0 <= i < |raw| && HasPrefix(raw[i..], CLOSE) {
      CloseIsEarly(raw, tail, i);
    } else {
      CloseIsFirst(raw, tail);
      RawIsPrefix(raw, tail);
    }
  }

  /** An encoder whose output has no '>' and is decoded to what was encoded; only the empty list may be blank or "null". */
  ghost predicate Faithful(codec: Codec) {
    forall es ::
      var raw := codec.encode(es);
      '>' !in raw && if TrimSpace(raw) == "" || TrimSpace(raw) == "null" then es == [] else codec.decode(raw) == Some(es)
  }

  /** Reading undoes writing. */
  lemma ExtractUndoesFlush(codec: Codec, es: seq<Entry>)
    requires Faithful(codec)
    ensures Extracted(codec, Flushed(codec, es)) == Entries(es)
  {
    var raw := codec.encode(es);
    forall i | 0 <= i < |raw|
      ensures !HasPrefix(raw[i..], CLOSE)
    {
      if |raw[i..]| >= 4 {
        assert raw[i..][..4][3] == raw[i + 3] && raw[i + 3] in raw;
      }
    }
    RawRoundTripIff(raw, HEADING + (if es == [] then NO_ENTRIES else codec.render(es)));
  }

  // ---------- Adding entries ----------

  /** The entries of the live file; an unreadable one counts as empty. */
  function Live(codec: Codec, file: string): seq<Entry> {
    match Extracted(codec, file) { case Corrupt => [] case Entries(es) => es }
  }

  /** How many entries are too many. */
  function Overflow(es: seq<Entry>): nat {
    if |es| > MAX_ENTRIES then |es| - MAX_ENTRIES else 0
  }

  /** The entries to archive and those to keep. */
  method CutOverflow(all: seq<Entry>) returns (overflow: seq<Entry>, entries: seq<Entry>)
    ensures overflow == all[..Overflow(all)] && entries == all[Overflow(all)..]
  {
    overflow, entries := [], all;
    if |all| > MAX_ENTRIES {
      overflow := all[..|all| - MAX_ENTRIES];
      entries := all[|all| - MAX_ENTRIES..];
    }
  }

  class Scratchpad {
    const codec: Codec
    var file: string            // the live file
    var archived: seq<Entry>    // what the archive files hold, oldest first

    constructor (codec: Codec)
      ensures this.codec == codec && file == Flushed(codec, []) && archived == []
    {
      this.codec := codec;
      file, archived := Flushed(codec, []), [];
    }

    /** Append an entry, moving the oldest beyond fifty to the archive. With a failed archive write those are
        lost; with a failed file write the live file stays as it was. */
    method AddEntry(entry: Entry, archiveOk: bool, writeOk: bool) returns (ok: bool)
      modifies this
      ensures ok <==> writeOk
      ensures
        var all := Live(codec, old(file)) + [entry];
        && archived == old(archived) + (if archiveOk then all[..Overflow(all)] else [])
        && file == if writeOk then Flushed(codec, all[Overflow(all)..]) else old(file)
    {
      var overflow, entries := CutOverflow(Live(codec, file) + [entry]);
      if |overflow| > 0 && archiveOk {
        archived := archived + overflow;
      }
      if writeOk {
        file := Flushed(codec, entries);
      }
      return writeOk;
    }
  }

  /** Archived and live entries after adding `es` to a new scratchpad. */
  function Split(es: seq<Entry>): (seq<Entry>, seq<Entry>) {
    if es == [] then ([], [])
    else
      var (archived, live) := Split(es[..|es| - 1]);
      var all := live + [es[|es| - 1]];
      (archived + all[..Overflow(all)], all[Overflow(all)..])
  }

  /** Archive and live file after adding `es` to a new scratchpad with every write succeeding. */
  function After(codec: Codec, es: seq<Entry>): (seq<Entry>, string) {
    if es == [] then ([], Flushed(codec, []))
    else
      var (archived, file) := After(codec, es[..|es| - 1]);
      var all := Live(codec, file) + [es[|es| - 1]];
      (archived + all[..Overflow(all)], Flushed(codec, all[Overflow(all)..]))
  }

  lemma {:induction false} FileHoldsLive(codec: Codec, es: seq<Entry>)
    requires Faithful(codec)
    ensures After(codec, es) == (Split(es).0, Flushed(codec, Split(es).1))
  {
    if es == [] {
    } else {
      FileHoldsLive(codec, es[..|es| - 1]);
      ExtractUndoesFlush(codec, Split(es[..|es| - 1]).1);
    }
  }

  lemma JoinCut(a: seq<Entry>, live: seq<Entry>, e: Entry, k: nat)
    requires k <= |live + [e]|
    ensures a + (live + [e])[..k] + (live + [e])[k..] == (a + live) + [e]
  {
  }

  lemma {:induction false} SplitJoins(es: seq<Entry>)
    ensures Split(es).0 + Split(es).1 == es
    ensures |Split(es).1| == if |es| <= MAX_ENTRIES then |es| else MAX_ENTRIES
  {
    if es == [] {
    } else {
      var before, e := es[..|es| - 1], es[|es| - 1];
      SplitJoins(before);
      var (archived, live) := Split(before);
      JoinCut(archived, live, e, Overflow(live + [e]));
      assert before + [e] == es;
    }
  }

  /** Nothing is lost or reordered: the archive followed by what the live file reads as is everything that was
      added, and the live entries are the last fifty, or all when there are fewer. */
  lemma NothingIsLost(codec: Codec, es: seq<Entry>)
    requires Faithful(codec)
    ensures
      var (archived, file) := After(codec, es);
      var live := Live(codec, file);
      archived + live == es && |live| == if |es| <= 50 then |es| else 50
  {
    FileHoldsLive(codec, es);
    SplitJoins(es);
    ExtractUndoesFlush(codec, Split(es).1);
  }

  /** What a file looks like: the encoded entries in a comment, the heading, and the entries for human readers. */
  lemma FileLayout(codec: Codec, es: seq<Entry>)
    ensures Flushed(codec, es) ==
      "<!-- scratchpad-json\n" + codec.encode(es) + "\n-->"
      + ("\n\n# Team Scratchpad\n\n*Auto-generated. Edit via API or agent calls.*\n\n"
         + if es == [] then "*No entries yet.*\n" else codec.render(es))
  {
  }
}
