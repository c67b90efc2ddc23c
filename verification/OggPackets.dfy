/** Opus packets read from a stream of Ogg pages (sections 5 and 6 of RFC 3533; the two header packets
    are those of section 5 of RFC 7845). */
module OggPackets {
  import opened Wrappers
  import opened Sequences

  type Byte = x: int | 0 <= x < 256
  type Bytes = seq<Byte>

  const PAGE_HEADER := 27
  const CAPTURE: Bytes := [79, 103, 103, 83]                              // OggS
  const OPUS_HEAD: Bytes := [79, 112, 117, 115, 72, 101, 97, 100]         // OpusHead
  const OPUS_TAGS: Bytes := [79, 112, 117, 115, 84, 97, 103, 115]         // OpusTags

  datatype Failure = Eof | UnexpectedEof | BadCapture | BadSegment

  function Total(table: Bytes): nat {
    if table == [] then 0 else table[0] + Total(table[1..])
  }

  /** The media packets among the completed ones. */
  predicate IsMedia(packet: Bytes) {
    packet != [] && !(OPUS_HEAD <= packet) && !(OPUS_TAGS <= packet)
  }

  function Media(packets: seq<Bytes>): seq<Bytes> {
    if packets == [] then []
    else (if IsMedia(packets[0]) then [packets[0]] else []) + Media(packets[1..])
  }

  /** Packets that segments complete, and the piece left over: a segment shorter than 255 bytes ends
      its packet. */
  function Reassemble(carry: Bytes, table: Bytes, body: Bytes): (seq<Bytes>, Bytes)
    requires |body| == Total(table)
    decreases |table|
  {
    if table == [] then ([], carry)
    else
      var packet := carry + body[..table[0]];
      if table[0] < 255 then
        var (completed, left) := Reassemble([], table[1..], body[table[0]..]);
        ([packet] + completed, left)
      else Reassemble(packet, table[1..], body[table[0]..])
  }

  /** One page, or why there is none and what is left of the input then. */
  datatype Page = Page(completed: seq<Bytes>, carry: Bytes, rest: Bytes) | NoPage(why: Failure, rest: Bytes)

  function ReadPage(input: Bytes, carry: Bytes): (page: Page)
    ensures |page.rest| <= |input|
    ensures page.Page? ==> |page.rest| < |input|
  {
    if |input| < PAGE_HEADER then NoPage(Eof, [])
    else
      var header, afterHeader := input[..PAGE_HEADER], input[PAGE_HEADER..];
      if header[..4] != CAPTURE then NoPage(BadCapture, afterHeader)
      else if |afterHeader| < header[26] then NoPage(if afterHeader == [] then Eof else UnexpectedEof, [])
      else
        var table, afterTable := afterHeader[..header[26]], afterHeader[header[26]..];
        if |afterTable| < Total(table) then NoPage(if afterTable == [] then Eof else UnexpectedEof, [])
        else
          var (completed, left) := Reassemble(carry, table, afterTable[..Total(table)]);
          Page(completed, left, afterTable[Total(table)..])
  }

  /** The media packets up to the first failure. */
  function Upcoming(input: Bytes, carry: Bytes): seq<Bytes>
    decreases |input|
  {
    var page := ReadPage(input, carry);
    if page.NoPage? then [] else Media(page.completed) + Upcoming(page.rest, page.carry)
  }

  /** The failure that ends them, with the input that is left and the piece of a packet carried over. */
  function Ending(input: Bytes, carry: Bytes): (Failure, Bytes, Bytes)
    decreases |input|
  {
    var page := ReadPage(input, carry);
    if page.NoPage? then (page.why, page.rest, carry) else Ending(page.rest, page.carry)
  }

  lemma NoSegments(packet: Bytes)
    ensures Total([]) == 0 && Reassemble(packet, [], []) == ([], packet)
  {
  }

  /** What one segment of a page does to the packet it continues. */
  lemma SegmentStep(packet: Bytes, table: Bytes, body: Bytes, n: nat, cursor: nat)
    requires n < |table| && cursor <= |body| && Total(table[n..]) == |body| - cursor
    ensures var next := cursor + table[n];
      && next <= |body| && Total(table[n + 1..]) == |body| - next
      && var longer := packet + body[cursor..next];
         Reassemble(packet, table[n..], body[cursor..]) ==
           if table[n] < 255 then
             var (completed, left) := Reassemble([], table[n + 1..], body[next..]);
             ([longer] + completed, left)
           else Reassemble(longer, table[n + 1..], body[next..])
  {
    var next := cursor + table[n];
    assert table[n..][0] == table[n] && table[n..][1..] == table[n + 1..];
    assert body[cursor..][..table[n]] == body[cursor..next] && body[cursor..][table[n]..] == body[next..];
  }

  class Reader {
    var input: Bytes
    var queue: seq<Bytes>
    var carry: Bytes

    /** Every packet calls will still return before one fails. */
    ghost function Contents(): seq<Bytes>
      reads this
    {
      queue + Upcoming(input, carry)
    }

    ghost function End(): (Failure, Bytes, Bytes)
      reads this
    {
      Ending(input, carry)
    }

    constructor (stream: Bytes)
      ensures Contents() == Upcoming(stream, []) && End() == Ending(stream, [])
    {
      input, queue, carry := stream, [], [];
      new;
      assert queue + Upcoming(input, carry) == Upcoming(input, carry);
    }

    /** io.ReadFull: the next n bytes, or everything that is left. */
    method ReadFull(n: nat) returns (data: Result<Bytes, Failure>)
      modifies this`input
      ensures if |old(input)| >= n then data == Ok(old(input)[..n]) && input == old(input)[n..]
              else data == Err(if old(input) == [] then Eof else UnexpectedEof) && input == []
    {
      if |input| >= n {
        data := Ok(input[..n]);
        input := input[n..];
      } else {
        data := Err(if input == [] then Eof else UnexpectedEof);
        input := [];
      }
    }

    method SplitBody(table: Bytes, body: Bytes) returns (result: Result<seq<Bytes>, Failure>)
      requires |body| == Total(table)
      modifies this`carry
      ensures result.Ok? && (result.value, carry) == Reassemble(old(carry), table, body)
    {
      hide Reassemble, Total;
      var completed: seq<Bytes> := [];
      var cursor := 0;
      var packet := carry;
      assert table[0..] == table && body[0..] == body;
      ghost var rest := Reassemble(carry, table, body);
      assert [] + rest.0 == rest.0;
      for n := 0 to |table|
        invariant 0 <= cursor <= |body| && Total(table[n..]) == |body| - cursor
        invariant rest == Reassemble(packet, table[n..], body[cursor..])
        invariant Reassemble(old(carry), table, body) == (completed + rest.0, rest.1)
        invariant carry == old(carry)
      {
        SegmentStep(packet, table, body, n, cursor);
        var next := cursor + table[n];
        if next > |body| {
          return Err(BadSegment);
        }
        packet := packet + body[cursor..next];
        cursor := next;
        if table[n] < 255 {
          ghost var more := Reassemble([], table[n + 1..], body[next..]);
          assert completed + ([packet] + more.0) == (completed + [packet]) + more.0;
          completed := completed + [packet];
          packet := [];
        }
        rest := Reassemble(packet, table[n + 1..], body[cursor..]);
      }
      NoSegments(packet);
      assert table[|table|..] == [] && body[cursor..] == [] && completed + [] == completed;
      carry := packet;
      result := Ok(completed);
    }

    method Enqueue(completed: seq<Bytes>)
      modifies this`queue
      ensures queue == old(queue) + Media(completed)
    {
      assert completed[0..] == completed;
      for n := 0 to |completed|
        invariant queue + Media(completed[n..]) == old(queue) + Media(completed)
      {
        assert completed[n..][0] == completed[n] && completed[n..][1..] == completed[n + 1..];
        var raw := completed[n];
        if |raw| == 0 { continue; }
        if OPUS_HEAD <= raw || OPUS_TAGS <= raw { continue; }
        queue := queue + [raw];
      }
    }

    /** One page: its packets join the queue, its unfinished one is carried over. */
    method TakePage() returns (err: Option<Failure>)
      modifies this
      ensures var page := ReadPage(old(input), old(carry));
        if page.Page? then err == None && input == page.rest && carry == page.carry
          && queue == old(queue) + Media(page.completed)
        else err == Some(page.why) && input == page.rest && carry == old(carry) && queue == old(queue)
    {
      hide Reassemble, Media, Total;
      var header := ReadFull(PAGE_HEADER);
      if header.Err? {
        return Some(Eof);
      }
      if header.value[..4] != CAPTURE {
        return Some(BadCapture);
      }
      var table := ReadFull(header.value[26]);
      if table.Err? {
        return Some(table.error);
      }
      var length := BodyLength(table.value);
      var body := ReadFull(length);
      if body.Err? {
        return Some(body.error);
      }
      var completed := SplitBody(table.value, body.value);
      Enqueue(completed.value);
      return None;
    }

    /** The next media packet of the stream; when there is none, why, leaving the reader behind what it
        could not read. No input makes it report a segment that runs past its page. */
    method NextPacket() returns (packet: Result<Bytes, Failure>)
      modifies this
      ensures old(Contents()) != [] ==>
        packet == Ok(old(Contents())[0]) && Contents() == old(Contents())[1..] && End() == old(End())
      ensures old(Contents()) == [] ==>
        packet == Err(old(End()).0) && queue == [] && input == old(End()).1 && carry == old(End()).2
      ensures packet != Err(BadSegment)
    {
      hide ReadPage;
      while true
        invariant Contents() == old(Contents()) && End() == old(End())
        decreases |input|
      {
        if |queue| > 0 {
          packet := Ok(queue[0]);
          queue := queue[1..];
          return;
        }
        EndingIsNotBadSegment(input, carry);
        var err := TakePage();
        if err.Some? {
          return Err(err.value);
        }
      }
    }
  }

  /** All packets of a stream, as the sender takes them one by one until a call fails. When the stream is
      any way of lacing and paging some packets, they are the media ones among them and the failure is
      its end. */
  method StreamPackets(stream: Bytes) returns (read: seq<Bytes>, why: Failure)
    ensures read == Upcoming(stream, []) && why == Ending(stream, []).0
    ensures forall packets, pages :: IsPaging(packets, pages, stream) ==> read == Media(packets) && why == Eof
    ensures forall p :: p in read ==> IsAudio(p)
  {
    hide Upcoming, Ending, Media, IsPaging, IsAudio;
    UpcomingIsAudio(stream, []);
    var reader := new Reader(stream);
    read := [];
    ghost var all, end := Upcoming(stream, []), Ending(stream, []);
    assert [] + all == all;
    while true
      invariant fresh(reader) && read + reader.Contents() == all && reader.End() == end
      decreases |reader.Contents()|
    {
      ghost var left := reader.Contents();
      var packet := reader.NextPacket();
      if packet.Err? {
        assert read + [] == read;
        why := packet.error;
        break;
      }
      assert read + left == (read + [left[0]]) + left[1..];
      read := read + [packet.value];
    }
    forall packets, pages | IsPaging(packets, pages, stream) ensures read == Media(packets) && why == Eof {
      PaginationIrrelevant(packets, pages, stream);
    }
  }

  method BodyLength(table: Bytes) returns (length: nat)
    ensures length == Total(table)
  {
    length := 0;
    assert table[0..] == table;
    for n := 0 to |table|
      invariant length + Total(table[n..]) == Total(table)
    {
      assert table[n..][0] == table[n] && table[n..][1..] == table[n + 1..];
      length := length + table[n];
    }
  }

  lemma {:induction false} EndingIsNotBadSegment(input: Bytes, carry: Bytes)
    ensures Ending(input, carry).0 != BadSegment
    decreases |input|
  {
    var page := ReadPage(input, carry);
    if page.Page? {
      EndingIsNotBadSegment(page.rest, page.carry);
    }
  }

  // ----- packets laced into pages

  /** The lacing values of one packet: 255s, then what remains. */
  function Lacing(size: nat): Bytes {
    if size < 255 then [size] else [255] + Lacing(size - 255)
  }

  function LacingAll(packets: seq<Bytes>): Bytes {
    if packets == [] then [] else Lacing(|packets[0]|) + LacingAll(packets[1..])
  }

  function Concat(packets: seq<Bytes>): Bytes {
    if packets == [] then [] else packets[0] + Concat(packets[1..])
  }

  lemma {:induction false} TotalConcat(a: Bytes, b: Bytes)
    ensures Total(a + b) == Total(a) + Total(b)
  {
    if a == [] {
      assert a + b == b;
    } else {
      assert (a + b)[1..] == a[1..] + b;
      TotalConcat(a[1..], b);
    }
  }

  lemma {:induction false} LacingTotal(size: nat)
    ensures Total(Lacing(size)) == size
  {
    if size < 255 {
      assert Lacing(size)[1..] == [];
    } else {
      LacingTotal(size - 255);
      assert Lacing(size)[1..] == Lacing(size - 255);
    }
  }

  lemma {:induction false} LacingAllTotal(packets: seq<Bytes>)
    ensures Total(LacingAll(packets)) == |Concat(packets)|
  {
    if packets != [] {
      LacingTotal(|packets[0]|);
      LacingAllTotal(packets[1..]);
      TotalConcat(Lacing(|packets[0]|), LacingAll(packets[1..]));
    }
  }

  /** The result of some segments when one segment comes before them: it ends the packet or it does not. */
  function After(n: Byte, packet: Bytes, later: (seq<Bytes>, Bytes)): (seq<Bytes>, Bytes) {
    if n < 255 then ([packet] + later.0, later.1) else later
  }

  lemma AfterConcat(n: Byte, packet: Bytes, completed: seq<Bytes>, more: seq<Bytes>, left: Bytes, left': Bytes)
    ensures After(n, packet, (completed + more, left)) == (After(n, packet, (completed, left')).0 + more, left)
    ensures After(n, packet, (completed, left')).1 == left'
  {
    assert [packet] + (completed + more) == ([packet] + completed) + more;
  }

  lemma ReassembleCons(carry: Bytes, n: Byte, table: Bytes, first: Bytes, body: Bytes)
    requires |first| == n && |body| == Total(table)
    ensures |first + body| == Total([n] + table)
    ensures var packet := carry + first;
      Reassemble(carry, [n] + table, first + body) ==
        After(n, packet, Reassemble(if n < 255 then [] else packet, table, body))
  {
    assert ([n] + table)[1..] == table && (first + body)[..n] == first && (first + body)[n..] == body;
  }

  /** Segments reassemble the same whether they come in one page or the next takes over. */
  lemma {:induction false} ReassembleSplits(carry: Bytes, table: Bytes, body: Bytes, table': Bytes, body': Bytes)
    requires |body| == Total(table) && |body'| == Total(table')
    ensures |body + body'| == Total(table + table')
    ensures var (completed, left) := Reassemble(carry, table, body);
      var (completed', left') := Reassemble(left, table', body');
      Reassemble(carry, table + table', body + body') == (completed + completed', left')
    decreases |table|
  {
    TotalConcat(table, table');
    if table == [] {
      NoSegments(carry);
      hide Reassemble, Total;
      assert table + table' == table' && body + body' == body';
      assert [] + Reassemble(carry, table', body').0 == Reassemble(carry, table', body').0;
    } else {
      var n, tail, first, rest := table[0], table[1..], body[..table[0]], body[table[0]..];
      assert table == [n] + tail && table + table' == [n] + (tail + table');
      assert body == first + rest && body + body' == first + (rest + body');
      TotalConcat(tail, table');
      hide Reassemble, Total, After;
      var packet := carry + first;
      var next := if n < 255 then [] else packet;
      ReassembleCons(carry, n, tail, first, rest);
      ReassembleCons(carry, n, tail + table', first, rest + body');
      ReassembleSplits(next, tail, rest, table', body');
      var (completed, left) := Reassemble(next, tail, rest);
      var (more, left') := Reassemble(left, table', body');
      AfterConcat(n, packet, completed, more, left', left);
    }
  }

  /** The segments of one packet complete it. */
  lemma {:induction false} ReassembleOne(carry: Bytes, packet: Bytes)
    ensures Total(Lacing(|packet|)) == |packet|
    ensures Reassemble(carry, Lacing(|packet|), packet) == ([carry + packet], [])
    decreases |packet|
  {
    LacingTotal(|packet|);
    if |packet| < 255 {
      assert Lacing(|packet|)[1..] == [] && packet[..|packet|] == packet && packet[|packet|..] == [];
      assert [carry + packet] + [] == [carry + packet];
    } else {
      assert Lacing(|packet|)[1..] == Lacing(|packet| - 255);
      ReassembleOne(carry + packet[..255], packet[255..]);
      assert carry + packet[..255] + packet[255..] == carry + packet;
    }
  }

  lemma {:induction false} ReassembleAll(packets: seq<Bytes>)
    ensures Total(LacingAll(packets)) == |Concat(packets)|
    ensures Reassemble([], LacingAll(packets), Concat(packets)) == (packets, [])
  {
    LacingAllTotal(packets);
    if packets != [] {
      var packet, rest := packets[0], packets[1..];
      ReassembleOne([], packet);
      ReassembleAll(rest);
      ReassembleSplits([], Lacing(|packet|), packet, LacingAll(rest), Concat(rest));
      assert [] + packet == packet && [packet] + rest == packets;
    }
  }

  /** A page: the header bytes a reader does not look at, its segments and their data. */
  datatype Paged = Paged(version: Bytes, table: Bytes, body: Bytes)

  predicate IsPage(p: Paged) {
    |p.version| == 22 && |p.table| <= 255 && |p.body| == Total(p.table)
  }

  function Encode(p: Paged): Bytes
    requires IsPage(p)
  {
    CAPTURE + p.version + [|p.table|] + p.table + p.body
  }

  function EncodeAll(pages: seq<Paged>): Bytes
    requires forall p :: p in pages ==> IsPage(p)
  {
    if pages == [] then [] else Encode(pages[0]) + EncodeAll(pages[1..])
  }

  function Tables(pages: seq<Paged>): Bytes {
    if pages == [] then [] else pages[0].table + Tables(pages[1..])
  }

  function Bodies(pages: seq<Paged>): Bytes {
    if pages == [] then [] else pages[0].body + Bodies(pages[1..])
  }

  lemma ReadEncoded(p: Paged, more: Bytes, carry: Bytes)
    requires IsPage(p)
    ensures var (completed, left) := Reassemble(carry, p.table, p.body);
      ReadPage(Encode(p) + more, carry) == Page(completed, left, more)
  {
    var input := Encode(p) + more;
    var afterHeader := input[PAGE_HEADER..];
    assert input[..PAGE_HEADER] == CAPTURE + p.version + [|p.table|];
    assert input[..PAGE_HEADER][..4] == CAPTURE;
    assert afterHeader == p.table + p.body + more;
    assert afterHeader[..|p.table|] == p.table && afterHeader[|p.table|..] == p.body + more;
    assert (p.body + more)[..|p.body|] == p.body && (p.body + more)[|p.body|..] == more;
  }

  lemma {:induction false} MediaConcat(a: seq<Bytes>, b: seq<Bytes>)
    ensures Media(a + b) == Media(a) + Media(b)
  {
    hide IsMedia;
    if a == [] {
      assert a + b == b;
      assert [] + Media(b) == Media(b);
    } else {
      assert (a + b)[0] == a[0] && (a + b)[1..] == a[1..] + b;
      MediaConcat(a[1..], b);
      var first := if IsMedia(a[0]) then [a[0]] else [];
      assert first + (Media(a[1..]) + Media(b)) == (first + Media(a[1..])) + Media(b);
    }
  }

  lemma NoPages(carry: Bytes, tail: Bytes)
    ensures EncodeAll([]) + tail == tail && Media([]) + Upcoming(tail, carry) == Upcoming(tail, carry)
    ensures Tables([]) == Bodies([]) == [] && Total([]) == 0 && Reassemble(carry, [], []) == ([], carry)
  {
    hide Upcoming;
  }

  /** One page read, then what comes after it. */
  lemma OnePage(p: Paged, more: Bytes, carry: Bytes)
    requires IsPage(p)
    ensures var (completed, left) := Reassemble(carry, p.table, p.body);
      && Upcoming(Encode(p) + more, carry) == Media(completed) + Upcoming(more, left)
      && Ending(Encode(p) + more, carry) == Ending(more, left)
  {
    hide Encode, ReadPage, Reassemble, Media, Total;
    ReadEncoded(p, more, carry);
  }

  lemma FirstPage(pages: seq<Paged>, tail: Bytes)
    requires pages != [] && forall p :: p in pages ==> IsPage(p)
    ensures EncodeAll(pages) + tail == Encode(pages[0]) + (EncodeAll(pages[1..]) + tail)
    ensures Tables(pages) == pages[0].table + Tables(pages[1..]) && Bodies(pages) == pages[0].body + Bodies(pages[1..])
  {
    hide Encode;
  }

  /** Reading pages one by one gives what all their segments together give, whatever comes after them. */
  lemma {:induction false} PagesReassemble(pages: seq<Paged>, carry: Bytes, tail: Bytes)
    requires forall p :: p in pages ==> IsPage(p)
    ensures |Bodies(pages)| == Total(Tables(pages))
    ensures var (completed, left) := Reassemble(carry, Tables(pages), Bodies(pages));
      && Upcoming(EncodeAll(pages) + tail, carry) == Media(completed) + Upcoming(tail, left)
      && Ending(EncodeAll(pages) + tail, carry) == Ending(tail, left)
  {
    hide Encode, EncodeAll, Tables, Bodies, Upcoming, Ending, Reassemble, Media, Total;
    if pages == [] {
      NoPages(carry, tail);
    } else {
      var p, rest := pages[0], pages[1..];
      assert p in pages;
      FirstPage(pages, tail);
      OnePage(p, EncodeAll(rest) + tail, carry);
      var (completed, left) := Reassemble(carry, p.table, p.body);
      PagesReassemble(rest, left, tail);
      ReassembleSplits(carry, p.table, p.body, Tables(rest), Bodies(rest));
      var (more, left') := Reassemble(left, Tables(rest), Bodies(rest));
      MediaConcat(completed, more);
      Associative(Media(completed), Media(more), Upcoming(tail, left'));
    }
  }

  /** The stream is these packets, laced and cut into pages. */
  ghost predicate IsPaging(packets: seq<Bytes>, pages: seq<Paged>, stream: Bytes) {
    && (forall p :: p in pages ==> IsPage(p)) && stream == EncodeAll(pages)
    && Tables(pages) == LacingAll(packets) && Bodies(pages) == Concat(packets)
  }

  /** However packets are laced and cut into pages, a reader returns exactly the media packets, in
      order, and then the end of the stream with nothing carried over. */
  lemma PaginationIrrelevant(packets: seq<Bytes>, pages: seq<Paged>, stream: Bytes)
    requires IsPaging(packets, pages, stream)
    ensures Upcoming(stream, []) == Media(packets) && Ending(stream, []) == (Eof, [], [])
  {
    PagesReassemble(pages, [], []);
    ReassembleAll(packets);
    assert EncodeAll(pages) + [] == EncodeAll(pages) && Media(packets) + [] == Media(packets);
  }

  // ----- a stream that is cut off

  /** A page that is there in full is read the same with more behind it. */
  lemma PageExtends(input: Bytes, more: Bytes, carry: Bytes)
    requires ReadPage(input, carry).Page?
    ensures var page := ReadPage(input, carry);
      ReadPage(input + more, carry) == Page(page.completed, page.carry, page.rest + more)
  {
    hide Reassemble, Total;
    var longer := input + more;
    assert longer[..PAGE_HEADER] == input[..PAGE_HEADER];
    var after, after' := input[PAGE_HEADER..], longer[PAGE_HEADER..];
    var n := input[26];
    assert after' == after + more && input[..PAGE_HEADER][26] == n;
    assert after'[..n] == after[..n] && after'[n..] == after[n..] + more;
    var body, size := after[n..], Total(after[..n]);
    assert (body + more)[..size] == body[..size] && (body + more)[size..] == body[size..] + more;
  }

  /** A stream cut off anywhere yields the first of the packets the whole stream does. */
  lemma {:induction false} CutOff(input: Bytes, more: Bytes, carry: Bytes)
    ensures Upcoming(input, carry) <= Upcoming(input + more, carry)
    decreases |input|
  {
    hide ReadPage, Media;
    var page := ReadPage(input, carry);
    if page.Page? {
      PageExtends(input, more, carry);
      CutOff(page.rest, more, page.carry);
    }
  }

  /** So of packets laced and cut into pages, a file that lacks its end yields the first media ones, none
      changed and none out of order. */
  lemma TruncationKeepsOrder(packets: seq<Bytes>, pages: seq<Paged>, stream: Bytes, n: nat)
    requires IsPaging(packets, pages, stream) && n <= |stream|
    ensures Upcoming(stream[..n], []) <= Media(packets)
  {
    assert stream[..n] + stream[n..] == stream;
    CutOff(stream[..n], stream[n..], []);
    PaginationIrrelevant(packets, pages, stream);
  }

  // ----- which packets are media

  /** The packet starts with the bytes of this text. */
  predicate StartsWith(packet: Bytes, text: string) {
    |text| <= |packet| && forall k :: 0 <= k < |text| ==> packet[k] == text[k] as int
  }

  predicate IsAudio(packet: Bytes) {
    packet != [] && !StartsWith(packet, "OpusHead") && !StartsWith(packet, "OpusTags")
  }

  lemma PrefixIsText(packet: Bytes, bytes: Bytes, text: string)
    requires |bytes| == |text| && forall k :: 0 <= k < |text| ==> bytes[k] == text[k] as int
    ensures bytes <= packet <==> StartsWith(packet, text)
  {
    if |text| <= |packet| {
      assert packet[..|text|] == bytes <==> forall k :: 0 <= k < |text| ==> packet[k] == bytes[k];
    }
  }

  lemma HeaderBytes(packet: Bytes)
    ensures IsMedia(packet) <==> IsAudio(packet)
  {
    PrefixIsText(packet, OPUS_HEAD, "OpusHead");
    PrefixIsText(packet, OPUS_TAGS, "OpusTags");
  }

  lemma MediaOne(packet: Bytes)
    ensures Media([packet]) == if IsMedia(packet) then [packet] else []
  {
    var one: seq<Bytes> := [packet];
    assert one[1..] == [];
  }

  lemma FilterLast(packets: seq<Bytes>)
    requires packets != []
    ensures Filter(packets, IsAudio) ==
      Filter(Init(packets), IsAudio) + if IsAudio(Last(packets)) then [Last(packets)] else []
  {
  }

  /** The media packets are those that are not empty and start neither with "OpusHead" nor with
      "OpusTags", in their order. */
  lemma {:induction false} MediaMeans(packets: seq<Bytes>)
    ensures Media(packets) == Filter(packets, IsAudio)
    ensures forall p :: p in Media(packets) <==> p in packets && IsAudio(p)
  {
    FilterMembers(packets, IsAudio);
    if packets != [] {
      var rest, last := Init(packets), Last(packets);
      FilterLast(packets);
      MediaMeans(rest);
      MediaConcat(rest, [last]);
      HeaderBytes(last);
      MediaOne(last);
      hide IsMedia, IsAudio, Media, Filter;
      assert packets == rest + [last];
    }
  }

  lemma {:induction false} UpcomingIsAudio(input: Bytes, carry: Bytes)
    ensures forall p :: p in Upcoming(input, carry) ==> IsAudio(p)
    decreases |input|
  {
    hide ReadPage, Media, IsAudio;
    var page := ReadPage(input, carry);
    if page.Page? {
      UpcomingIsAudio(page.rest, page.carry);
      MediaMeans(page.completed);
    }
  }

  // ----- streams that end badly

  /** A page that is cut off is a failure: the end of the stream when the cut is in the fixed header or
      between two parts, and an unexpected end otherwise. */
  lemma CutPage(p: Paged, n: nat, carry: Bytes)
    requires IsPage(p) && n < |Encode(p)|
    ensures ReadPage(Encode(p)[..n], carry) == NoPage(if n <= 27 || n == 27 + |p.table| then Eof else UnexpectedEof, [])
  {
    hide Reassemble;
    var part := Encode(p)[..n];
    if n >= 27 {
      assert part[..27] == CAPTURE + p.version + [|p.table|];
      assert part[..27][..4] == CAPTURE && part[..27][26] == |p.table|;
      assert part[27..] == (p.table + p.body)[..n - 27];
      if n - 27 >= |p.table| {
        assert part[27..][..|p.table|] == p.table && part[27..][|p.table|..] == p.body[..n - 27 - |p.table|];
      }
    }
  }

  /** What does not start with "OggS" is no page. */
  lemma ForeignPage(input: Bytes, carry: Bytes)
    requires |input| >= 27 && !StartsWith(input, "OggS")
    ensures ReadPage(input, carry) == NoPage(BadCapture, input[27..])
  {
    PrefixIsText(input, CAPTURE, "OggS");
    assert input[..27][..4] == input[..4];
  }
}
