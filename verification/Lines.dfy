/** JSON-lines framing: the reader both ends use, and the client's `IpcClient`. */
module Lines {
  import opened Common
  import Json
  import JsonPrefix
  import Codec
  import P = Protocol

  /** White space as `str::trim` sees it. */
  predicate IsSpace(c: char) {
    '\t' <= c <= '\r' || c == ' ' || c == '\U{0085}' || c == '\U{00A0}' || c == '\U{1680}' ||
    '\U{2000}' <= c <= '\U{200A}' || c == '\U{2028}' || c == '\U{2029}' || c == '\U{202F}' ||
    c == '\U{205F}' || c == '\U{3000}'
  }

  predicate IsBlank(line: string) {
    forall i :: 0 <= i < |line| ==> IsSpace(line[i])
  }

  // ---------- lines ----------

  /** Where the first newline is, or the end. */
  function LineEnd(s: string): (n: nat)
    ensures n <= |s|
    ensures n < |s| ==> s[n] == '\n'
    ensures '\n' !in s[..n]
  {
    if s == "" || s[0] == '\n' then 0
    else
      var n := 1 + LineEnd(s[1..]);
      assert s[..n] == [s[0]] + s[1..][..n - 1];
      n
  }

  datatype Split = EndOfStream | Line(line: string, rest: string)

  /** The next line without its `\n` or `\r\n`; the last one may lack the newline. */
  function NextLine(s: string): (r: Split)
    ensures r.Line? ==> |r.rest| < |s|
  {
    if s == "" then EndOfStream
    else
      var n := LineEnd(s);
      if n == |s| then Line(s, "")
      else if n > 0 && s[n - 1] == '\r' then Line(s[..n - 1], s[n + 1..])
      else Line(s[..n], s[n + 1..])
  }

  /** What a stream says: one entry for each line that is not blank, `None` where it does not decode. */
  function Decoded<M>(s: string, decode: string -> Option<M>): seq<Option<M>>
    decreases |s|
  {
    match NextLine(s)
    case EndOfStream => []
    case Line(line, rest) =>
      (if IsBlank(line) then [] else [decode(line)]) + Decoded(rest, decode)
  }

  // ---------- messages on lines ----------

  function ClientLine(m: P.ClientMessage): string {
    Json.Print(Codec.EncodeClient(m))
  }

  function DaemonLine(m: P.DaemonMessage): string {
    Json.Print(Codec.EncodeDaemon(m))
  }

  function ReadClientLine(line: string): Option<P.ClientMessage> {
    var j :- Json.Parse(line);
    Codec.DecodeClient(j)
  }

  function ReadDaemonLine(line: string): Option<P.DaemonMessage> {
    var j :- Json.Parse(line);
    Codec.DecodeDaemon(j)
  }

  /** A message's line is one line of text, is not blank, and decodes to the message. */
  ghost predicate Framed<M>(line: string, m: M, decode: string -> Option<M>) {
    && (forall c :: c in line ==> c >= ' ')
    && !IsBlank(line)
    && decode(line) == Some(m)
  }

  lemma ClientLineIsFramed(m: P.ClientMessage)
    ensures Framed(ClientLine(m), m, ReadClientLine)
  {
    var j := Codec.EncodeClient(m);
    Codec.ClientRoundTrip(m);
    Json.ParsePrint(j);
    Json.PrintedIsOneLine(j);
    assert Json.Print(j)[0] == '{';
  }

  lemma DaemonLineIsFramed(m: P.DaemonMessage)
    requires Codec.Fits(m)
    ensures Framed(DaemonLine(m), m, ReadDaemonLine)
  {
    var j := Codec.EncodeDaemon(m);
    Codec.DaemonRoundTrip(m);
    Json.ParsePrint(j);
    Json.PrintedIsOneLine(j);
    assert Json.Print(j)[0] == '{';
  }

  // ---------- sequences of messages ----------

  /** What is put on the wire: messages, with blank lines in between. */
  datatype Piece<M> = Blank(space: string) | Message(message: M)

  function Shown<M>(p: Piece<M>, show: M -> string): string {
    match p
    case Blank(space) => space
    case Message(m) => show(m)
  }

  function Written<M>(pieces: seq<Piece<M>>, show: M -> string): string {
    if pieces == [] then "" else Shown(pieces[0], show) + "\n" + Written(pieces[1..], show)
  }

  /** The messages, each as the reader should find it. */
  function Found<M>(pieces: seq<Piece<M>>): seq<Option<M>> {
    if pieces == [] then []
    else FoundOne(pieces[0]) + Found(pieces[1..])
  }

  function FoundOne<M>(p: Piece<M>): seq<Option<M>> {
    if p.Blank? then [] else [Some(p.message)]
  }

  ghost predicate Fair<M>(p: Piece<M>, show: M -> string, decode: string -> Option<M>) {
    match p
    case Blank(space) => IsBlank(space) && '\n' !in space
    case Message(m) => Framed(show(m), m, decode)
  }

  lemma {:induction false} LineEndAt(line: string, rest: string)
    requires '\n' !in line
    ensures LineEnd(line + "\n" + rest) == |line|
  {
    var s := line + "\n" + rest;
    if line != "" {
      assert s[1..] == line[1..] + "\n" + rest;
      LineEndAt(line[1..], rest);
    }
  }

  /** The reader takes exactly one piece off the stream, up to a carriage return that a blank may end in. */
  lemma TakesOne(line: string, rest: string)
    requires '\n' !in line
    ensures
      var r := NextLine(line + "\n" + rest);
      r.Line? && r.rest == rest && r.line == if line != "" && Last(line) == '\r' then Front(line) else line
  {
    var s, n := line + "\n" + rest, |line|;
    LineEndAt(line, rest);
    assert s[..n] == line && s[n + 1..] == rest;
    if n > 0 {
      assert s[n - 1] == Last(line) && s[..n - 1] == Front(line);
    }
  }

  lemma DecodesOne<M>(p: Piece<M>, rest: string, show: M -> string, decode: string -> Option<M>)
    requires Fair(p, show, decode)
    ensures Decoded(Shown(p, show) + "\n" + rest, decode) ==
            FoundOne(p) + Decoded(rest, decode)
  {
    var line := Shown(p, show);
    TakesOne(line, rest);
    if p.Message? {
      assert Last(line) in line;
    }
  }

  lemma Reassociate(line: string, others: string, tail: string)
    ensures (line + "\n" + others) + tail == line + "\n" + (others + tail)
  {
  }

  /** Every message written is read back, in order, whatever follows on the stream. */
  lemma {:induction false} Recovered<M>(
    pieces: seq<Piece<M>>, tail: string, show: M -> string, decode: string -> Option<M>)
    requires forall i :: 0 <= i < |pieces| ==> Fair(pieces[i], show, decode)
    ensures Decoded(Written(pieces, show) + tail, decode) == Found(pieces) + Decoded(tail, decode)
  {
    if pieces == [] {
      assert "" + tail == tail;
    } else {
      var line, others := Shown(pieces[0], show), Written(pieces[1..], show);
      Recovered(pieces[1..], tail, show, decode);
      DecodesOne(pieces[0], others + tail, show, decode);
      Reassociate(line, others, tail);
      Associate(FoundOne(pieces[0]), Found(pieces[1..]), Decoded(tail, decode));
    }
  }

  /** Any sequence of client messages, with blank lines interspersed, is recovered exactly. */
  lemma ClientStreamRoundTrip(pieces: seq<Piece<P.ClientMessage>>)
    requires forall i :: 0 <= i < |pieces| && pieces[i].Blank? ==> IsBlank(pieces[i].space) && '\n' !in pieces[i].space
    ensures Decoded(Written(pieces, ClientLine), ReadClientLine) == Found(pieces)
  {
    forall i | 0 <= i < |pieces|
      ensures Fair(pieces[i], ClientLine, ReadClientLine)
    {
      if pieces[i].Message? {
        ClientLineIsFramed(pieces[i].message);
      }
    }
    Recovered(pieces, "", ClientLine, ReadClientLine);
    assert Written(pieces, ClientLine) + "" == Written(pieces, ClientLine);
  }

  lemma DaemonPieceIsFair(p: Piece<P.DaemonMessage>)
    requires if p.Blank? then IsBlank(p.space) && '\n' !in p.space else Codec.Fits(p.message)
    ensures Fair(p, DaemonLine, ReadDaemonLine)
  {
    if p.Message? {
      DaemonLineIsFramed(p.message);
    }
  }

  /** The same for daemon messages. */
  lemma DaemonStreamRoundTrip(pieces: seq<Piece<P.DaemonMessage>>)
    requires forall i :: 0 <= i < |pieces| ==>
      if pieces[i].Blank? then IsBlank(pieces[i].space) && '\n' !in pieces[i].space else Codec.Fits(pieces[i].message)
    ensures Decoded(Written(pieces, DaemonLine), ReadDaemonLine) == Found(pieces)
  {
    forall i | 0 <= i < |pieces|
      ensures Fair(pieces[i], DaemonLine, ReadDaemonLine)
    {
      DaemonPieceIsFair(pieces[i]);
    }
    Recovered(pieces, "", DaemonLine, ReadDaemonLine);
    assert Written(pieces, DaemonLine) + "" == Written(pieces, DaemonLine);
  }

  // ---------- streams that break off ----------

  /** No proper part of the line passes for a message. */
  ghost predicate Whole<M>(line: string, decode: string -> Option<M>) {
    forall cut :: cut <= line && cut != line && cut != "" ==> !IsBlank(cut) && decode(cut).None?
  }

  lemma DaemonLineIsWhole(m: P.DaemonMessage)
    requires Codec.Fits(m)
    ensures Whole(DaemonLine(m), ReadDaemonLine)
  {
    var line := DaemonLine(m);
    Codec.DaemonRoundTrip(m);
    forall cut | cut <= line && cut != line && cut != ""
      ensures !IsBlank(cut) && ReadDaemonLine(cut).None?
    {
      assert cut[0] == line[0] == '{';
      JsonPrefix.CutObjectIsNotJson(Codec.EncodeDaemon(m).fields, cut);
    }
  }

  /** The entry that an unfinished line gives. */
  lemma DecodesRest<M>(line: string, decode: string -> Option<M>)
    requires '\n' !in line
    ensures Decoded(line, decode) == if IsBlank(line) then [] else [decode(line)]
  {
    if line != "" {
      assert LineEnd(line) == |line|;
    }
  }

  lemma UnfinishedPiece<M>(p: Piece<M>, cut: string, show: M -> string, decode: string -> Option<M>)
    requires Fair(p, show, decode) && (p.Message? ==> Whole(show(p.message), decode))
    requires cut <= Shown(p, show)
    ensures Decoded(cut, decode) in {[], [None], FoundOne(p)}
  {
    var line := Shown(p, show);
    assert forall i :: 0 <= i < |cut| ==> cut[i] == line[i] && cut[i] in line;
    assert '\n' !in line;
    DecodesRest(cut, decode);
  }

  /**
   Wherever the stream breaks off, what was read is a beginning of what was written, but for one
   last entry that may have failed to decode.
   */
  ghost predicate Beginning<M>(entries: seq<Option<M>>, all: seq<Option<M>>) {
    entries <= all || (entries != [] && Last(entries) == None && Front(entries) <= all)
  }

  lemma BeginningAfter<M>(first: seq<Option<M>>, entries: seq<Option<M>>, all: seq<Option<M>>)
    requires Beginning(entries, all)
    ensures Beginning(first + entries, first + all)
  {
    if !(entries <= all) {
      assert Front(first + entries) == first + Front(entries);
    }
  }

  lemma {:induction false} BrokenOff<M>(
    pieces: seq<Piece<M>>, cut: string, show: M -> string, decode: string -> Option<M>)
    requires forall i :: 0 <= i < |pieces| ==>
      Fair(pieces[i], show, decode) && (pieces[i].Message? ==> Whole(show(pieces[i].message), decode))
    requires cut <= Written(pieces, show)
    ensures Beginning(Decoded(cut, decode), Found(pieces))
  {
    if pieces != [] {
      var line, n := Shown(pieces[0], show), |Shown(pieces[0], show)| + 1;
      if n <= |cut| {
        var rest := cut[n..];
        Reassemble(cut, line, Written(pieces[1..], show));
        BrokenOff(pieces[1..], rest, show, decode);
        DecodesOne(pieces[0], rest, show, decode);
        BeginningAfter(FoundOne(pieces[0]), Decoded(rest, decode), Found(pieces[1..]));
      } else {
        StartsIn(cut, line, Written(pieces[1..], show));
        UnfinishedPiece(pieces[0], cut, show, decode);
      }
    }
  }

  lemma Reassemble(cut: string, line: string, others: string)
    requires cut <= line + "\n" + others && |line| < |cut|
    ensures cut == line + "\n" + cut[|line| + 1..] && cut[|line| + 1..] <= others
  {
    var whole := line + "\n" + others;
    assert whole[..|cut|] == cut && whole[|line| + 1..] == others;
    assert forall i :: 0 <= i <= |line| ==> cut[i] == (line + "\n")[i];
  }

  lemma StartsIn(cut: string, line: string, others: string)
    requires cut <= line + "\n" + others && |cut| <= |line|
    ensures cut <= line
  {
    assert forall i :: 0 <= i < |cut| ==> cut[i] == line[i];
  }

  /** However the daemon's stream is cut, no message is made up and none but the last is damaged. */
  lemma DaemonStreamBrokenOff(pieces: seq<Piece<P.DaemonMessage>>, cut: string)
    requires forall i :: 0 <= i < |pieces| ==>
      if pieces[i].Blank? then IsBlank(pieces[i].space) && '\n' !in pieces[i].space else Codec.Fits(pieces[i].message)
    requires cut <= Written(pieces, DaemonLine)
    ensures Beginning(Decoded(cut, ReadDaemonLine), Found(pieces))
  {
    forall i | 0 <= i < |pieces|
      ensures Fair(pieces[i], DaemonLine, ReadDaemonLine)
      ensures pieces[i].Message? ==> Whole(DaemonLine(pieces[i].message), ReadDaemonLine)
    {
      DaemonPieceIsFair(pieces[i]);
      if pieces[i].Message? {
        DaemonLineIsWhole(pieces[i].message);
      }
    }
    BrokenOff(pieces, cut, DaemonLine, ReadDaemonLine);
  }

  lemma ClientLineIsWhole(m: P.ClientMessage)
    ensures Whole(ClientLine(m), ReadClientLine)
  {
    var line := ClientLine(m);
    Codec.ClientRoundTrip(m);
    forall cut | cut <= line && cut != line && cut != ""
      ensures !IsBlank(cut) && ReadClientLine(cut).None?
    {
      assert cut[0] == line[0] == '{';
      JsonPrefix.CutObjectIsNotJson(Codec.EncodeClient(m).fields, cut);
    }
  }

  /** The same for the requests of a client that breaks off. */
  lemma ClientStreamBrokenOff(pieces: seq<Piece<P.ClientMessage>>, cut: string)
    requires forall i :: 0 <= i < |pieces| && pieces[i].Blank? ==> IsBlank(pieces[i].space) && '\n' !in pieces[i].space
    requires cut <= Written(pieces, ClientLine)
    ensures Beginning(Decoded(cut, ReadClientLine), Found(pieces))
  {
    forall i | 0 <= i < |pieces|
      ensures Fair(pieces[i], ClientLine, ReadClientLine)
      ensures pieces[i].Message? ==> Whole(ClientLine(pieces[i].message), ReadClientLine)
    {
      if pieces[i].Message? {
        ClientLineIsFramed(pieces[i].message);
        ClientLineIsWhole(pieces[i].message);
      }
    }
    BrokenOff(pieces, cut, ClientLine, ReadClientLine);
  }

  // ---------- the client ----------

  /** `Failed`: the line was not a daemon message; it is consumed all the same. */
  datatype Answer = Closed | Failed | Got(message: P.DaemonMessage)

  /** One end of the connection: what is still to be read and what has been written. */
  class IpcClient {
    var incoming: string
    var outgoing: string

    constructor (stream: string)
      ensures incoming == stream && outgoing == ""
    {
      incoming, outgoing := stream, "";
    }

    method Send(m: P.ClientMessage)
      modifies this`outgoing
      ensures outgoing == old(outgoing) + ClientLine(m) + "\n"
    {
      var buf := ClientLine(m);
      buf := buf + ['\n'];
      outgoing := outgoing + buf;
    }

    /** The next message that is not on a blank line. */
    method NextMessage() returns (answer: Answer)
      modifies this`incoming
      ensures
        var was, now := Decoded(old(incoming), ReadDaemonLine), Decoded(incoming, ReadDaemonLine);
        match answer
        case Closed => was == [] && incoming == ""
        case Failed => was == [None] + now
        case Got(m) => was == [Some(m)] + now
      decreases |incoming|
    {
      match NextLine(incoming) {
        case EndOfStream =>
          answer := Closed;
        case Line(line, rest) =>
          incoming := rest;
          if IsBlank(line) {
            answer := NextMessage();
          } else {
            var m := ReadDaemonLine(line);
            answer := if m.None? then Failed else Got(m.value);
          }
      }
    }
  }
}
