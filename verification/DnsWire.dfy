/** The two walks over a DNS packet: the installer's sinkhole test and the panel's address reader. */
module DnsWire {
  import opened Wrappers

  newtype Byte = b: int | 0 <= b < 256
  type Packet = seq<Byte>

  const A_RECORD := 1
  const AAAA_RECORD := 28
  const HEADER := 12

  function Word(p: Packet, i: nat): nat
    requires i + 2 <= |p|
  {
    (p[i] as int) * 256 + p[i + 1] as int
  }

  // The two top bits both set: a compression pointer. One of them set: no label RFC 1035 knows.
  predicate IsPointer(length: Byte) { length >= 0xC0 }
  predicate IsReserved(length: Byte) { 0x40 <= length < 0xC0 }

  // --- names ---------------------------------------------------------------

  /** The installer's walk: None on an overrun or on a reserved label type. */
  function StrictName(p: Packet, offset: nat): Option<nat>
    decreases |p| - offset
  {
    if offset >= |p| then None
    else if IsPointer(p[offset]) then (if offset + 2 <= |p| then Some(offset + 2) else None)
    else if p[offset] == 0 then Some(offset + 1)
    else if IsReserved(p[offset]) || offset + 1 + p[offset] as int > |p| then None
    else StrictName(p, offset + 1 + p[offset] as int)
  }

  /** The panel's walk: any byte below 0xC0 is a length, and only an index past the end stops it. */
  function LooseName(p: Packet, offset: nat): Option<nat>
    decreases |p| - offset
  {
    if offset >= |p| then None
    else if p[offset] == 0 then Some(offset + 1)
    else if IsPointer(p[offset]) then Some(offset + 2)
    else LooseName(p, offset + p[offset] as int + 1)
  }

  method SkipDnsName(p: Packet, start: nat) returns (r: Option<nat>)
    ensures r == StrictName(p, start)
  {
    var offset := start;
    while offset < |p|
      invariant StrictName(p, start) == StrictName(p, offset)
    {
      var length := p[offset];
      if IsPointer(length) { return if offset + 2 <= |p| then Some(offset + 2) else None; }
      offset := offset + 1;
      if length == 0 { return Some(offset); }
      if length >= 0x40 || offset + length as int > |p| { return None; }
      offset := offset + length as int;
    }
    return None;
  }

  /** None stands for the IndexError of the original; the loop ends on every byte string. */
  method SkipName(p: Packet, start: nat) returns (r: Option<nat>)
    ensures r == LooseName(p, start)
  {
    var offset := start;
    while true
      invariant LooseName(p, start) == LooseName(p, offset)
      decreases |p| - offset
    {
      if offset >= |p| { return None; }
      var length := p[offset];
      if length == 0 { return Some(offset + 1); }
      if IsPointer(length) { return Some(offset + 2); }
      offset := offset + length as int + 1;
    }
  }

  // --- the sinkhole test ---------------------------------------------------

  predicate Zero(bytes: Packet) { forall i :: 0 <= i < |bytes| ==> bytes[i] == 0 }

  predicate IsAddress(rtype: nat, data: Packet) {
    (rtype == A_RECORD && |data| == 4) || (rtype == AAAA_RECORD && |data| == 16)
  }

  // Where the question section ends for the strict reader.
  function StrictQuestions(p: Packet, offset: nat, n: nat): Option<nat>
    decreases n
  {
    if n == 0 then Some(offset)
    else match StrictName(p, offset)
      case None => None
      case Some(o) => if o + 4 > |p| then None else StrictQuestions(p, o + 4, n - 1)
  }

  // One resource record: its type, its data, and where the next one starts.
  datatype Record = Record(rtype: nat, data: Packet, next: nat)

  function StrictRecord(p: Packet, offset: nat): Option<Record> {
    var name := StrictName(p, offset);
    if name.None? || name.value + 10 > |p| then None
    else
      var data := name.value + 10;
      var next := data + Word(p, name.value + 8);
      if next > |p| then None else Some(Record(Word(p, name.value), p[data..next], next))
  }

  // One of the next n records is an all-zero address, and the walk gets to it.
  predicate StrictZero(p: Packet, offset: nat, n: nat)
    decreases n
  {
    n > 0 &&
    match StrictRecord(p, offset)
    case None => false
    case Some(r) => (IsAddress(r.rtype, r.data) && Zero(r.data)) || StrictZero(p, r.next, n - 1)
  }

  predicate Sinkholed(packet: Option<Packet>) {
    && packet.Some? && |packet.value| >= HEADER
    && var p := packet.value;
       var q := StrictQuestions(p, HEADER, Word(p, 4));
       q.Some? && StrictZero(p, q.value, Word(p, 6))
  }

  method ResponseIsSinkholed(packet: Option<Packet>) returns (yes: bool)
    ensures yes <==> Sinkholed(packet)
  {
    if packet.None? || |packet.value| < HEADER { return false; }
    var p := packet.value;
    var questions, answers := Word(p, 4), Word(p, 6);
    var offset: nat := HEADER;
    for i := 0 to questions
      invariant StrictQuestions(p, HEADER, questions) == StrictQuestions(p, offset, questions - i)
    {
      var next := SkipDnsName(p, offset);
      if next.None? || next.value + 4 > |p| { return false; }
      offset := next.value + 4;
    }
    yes := AnswerIsSinkholed(p, offset, answers);
  }

  // The record loop of the test.
  method AnswerIsSinkholed(p: Packet, first: nat, answers: nat) returns (yes: bool)
    ensures yes <==> StrictZero(p, first, answers)
  {
    var offset: nat := first;
    for i := 0 to answers
      invariant StrictZero(p, first, answers) <==> StrictZero(p, offset, answers - i)
    {
      var record := ReadWholeRecord(p, offset);
      if record.None? { return false; }
      if IsAddress(record.value.rtype, record.value.data) && Zero(record.value.data) { return true; }
      offset := record.value.next;
    }
    return false;
  }

  // One turn of it: the name, the ten fixed bytes and the data, all of it there.
  method ReadWholeRecord(p: Packet, start: nat) returns (record: Option<Record>)
    ensures record == StrictRecord(p, start)
  {
    var next := SkipDnsName(p, start);
    if next.None? || next.value + 10 > |p| { return None; }
    var offset := next.value;
    var rtype, size := Word(p, offset), Word(p, offset + 8);
    offset := offset + 10;
    if offset + size > |p| { return None; }
    return Some(Record(rtype, p[offset..offset + size], offset + size));
  }

  // --- the address reader --------------------------------------------------

  // The slice of a list, cut short at its end.
  function Slice(p: Packet, lo: nat, hi: nat): Packet
    requires lo <= hi
  {
    if lo >= |p| then [] else if hi >= |p| then p[lo..] else p[lo..hi]
  }

  function LooseQuestions(p: Packet, offset: nat, n: nat): Option<nat>
    decreases n
  {
    if n == 0 then Some(offset)
    else match LooseName(p, offset)
      case None => None
      case Some(o) => LooseQuestions(p, o + 4, n - 1)
  }

  // One record's part in the answer.
  function Found(rtype: nat, data: Packet): seq<Packet> { if IsAddress(rtype, data) then [data] else [] }

  function LooseRecord(p: Packet, offset: nat): Option<Record> {
    var name := LooseName(p, offset);
    if name.None? || name.value + 10 > |p| then None
    else
      var data := name.value + 10;
      var next := data + Word(p, name.value + 8);
      Some(Record(Word(p, name.value), Slice(p, data, next), next))
  }

  // The addresses among n records, in order; None stands for an exception on the way.
  function LooseAddresses(p: Packet, offset: nat, n: nat): Option<seq<Packet>>
    decreases n
  {
    if n == 0 then Some([])
    else match LooseRecord(p, offset)
      case None => None
      case Some(r) => Prepend(Found(r.rtype, r.data), LooseAddresses(p, r.next, n - 1))
  }

  function Prepend(head: seq<Packet>, tail: Option<seq<Packet>>): Option<seq<Packet>> {
    if tail.None? then None else Some(head + tail.value)
  }

  datatype Parsed = Parsed(rcode: Option<nat>, addresses: seq<Packet>)

  function Parse(p: Packet): Parsed {
    if |p| < HEADER then Parsed(None, [])
    else
      var q := LooseQuestions(p, HEADER, Word(p, 4));
      var found := if q.None? then None else LooseAddresses(p, q.value, Word(p, 6));
      Parsed(Some(Word(p, 2) % 16), if found.None? then [] else found.value)
  }

  method ParseResponse(p: Packet) returns (r: Parsed)
    ensures r == Parse(p)
  {
    if |p| < HEADER { return Parsed(None, []); }
    var rcode, questions, answers := Some(Word(p, 2) % 16), Word(p, 4), Word(p, 6);
    var offset: nat := HEADER;
    for i := 0 to questions
      invariant LooseQuestions(p, HEADER, questions) == LooseQuestions(p, offset, questions - i)
    {
      var next := SkipName(p, offset);
      if next.None? { return Parsed(rcode, []); }
      offset := next.value + 4;
    }
    var found := ReadAddresses(p, offset, answers);
    return Parsed(rcode, if found.None? then [] else found.value);
  }

  // One turn of it: the name, the ten fixed bytes and the data.
  method ReadRecord(p: Packet, start: nat) returns (record: Option<Record>)
    ensures record == LooseRecord(p, start)
  {
    var next := SkipName(p, start);
    if next.None? || next.value + 10 > |p| { return None; }
    var offset := next.value;
    var rtype, size := Word(p, offset), Word(p, offset + 8);
    offset := offset + 10;
    return Some(Record(rtype, Slice(p, offset, offset + size), offset + size));
  }

  // The record loop of the reader; None stands for an exception on the way.
  method ReadAddresses(p: Packet, first: nat, answers: nat) returns (found: Option<seq<Packet>>)
    ensures found == LooseAddresses(p, first, answers)
  {
    var offset: nat := first;
    var addresses: seq<Packet> := [];
    ghost var all := LooseAddresses(p, first, answers);
    PrependNothing(all);
    for i := 0 to answers
      invariant all == Prepend(addresses, LooseAddresses(p, offset, answers - i))
    {
      ReadOne(p, offset, answers - i, addresses);
      var record := ReadRecord(p, offset);
      if record.None? { return None; }
      addresses := addresses + Found(record.value.rtype, record.value.data);
      offset := record.value.next;
    }
    PrependTwice(addresses, [], Some([]));
    return Some(addresses);
  }

  lemma PrependTwice(a: seq<Packet>, b: seq<Packet>, tail: Option<seq<Packet>>)
    ensures Prepend(a, Prepend(b, tail)) == Prepend(a + b, tail)
    ensures a + [] == a
  {
    if tail.Some? { assert a + (b + tail.value) == (a + b) + tail.value; }
  }

  lemma ReadOne(p: Packet, offset: nat, n: nat, addresses: seq<Packet>)
    requires n > 0
    ensures Prepend(addresses, LooseAddresses(p, offset, n))
         == match LooseRecord(p, offset)
            case None => None
            case Some(r) => Prepend(addresses + Found(r.rtype, r.data), LooseAddresses(p, r.next, n - 1))
  {
    var record := LooseRecord(p, offset);
    if record.Some? {
      var r := record.value;
      PrependTwice(addresses, Found(r.rtype, r.data), LooseAddresses(p, r.next, n - 1));
    }
  }

  lemma PrependNothing(tail: Option<seq<Packet>>)
    ensures Prepend([], tail) == tail
  {
    if tail.Some? { assert [] + tail.value == tail.value; }
  }

  // --- any byte string -----------------------------------------------------

  /** Where the strict walk gets past a name, the loose one lands on the same byte. */
  lemma {:induction false} StrictNameIsLoose(p: Packet, offset: nat)
    requires StrictName(p, offset).Some?
    ensures LooseName(p, offset) == StrictName(p, offset)
    decreases |p| - offset
  {
    if p[offset] != 0 && !IsPointer(p[offset]) { StrictNameIsLoose(p, offset + 1 + p[offset] as int); }
  }

  lemma {:induction false} StrictQuestionsAreLoose(p: Packet, offset: nat, n: nat)
    requires StrictQuestions(p, offset, n).Some?
    ensures LooseQuestions(p, offset, n) == StrictQuestions(p, offset, n)
    decreases n
  {
    if n > 0 {
      StrictNameIsLoose(p, offset);
      StrictQuestionsAreLoose(p, StrictName(p, offset).value + 4, n - 1);
    }
  }

  predicate HasZero(addresses: seq<Packet>) { exists a :: a in addresses && Zero(a) }

  lemma HasZeroJoin(head: seq<Packet>, tail: seq<Packet>)
    ensures HasZero(head + tail) <==> HasZero(head) || HasZero(tail)
  {
    if HasZero(head) { var a :| a in head && Zero(a); assert a in head + tail; }
    if HasZero(tail) { var a :| a in tail && Zero(a); assert a in head + tail; }
  }

  lemma FoundZero(rtype: nat, data: Packet)
    ensures HasZero(Found(rtype, data)) <==> IsAddress(rtype, data) && Zero(data)
  {
    if IsAddress(rtype, data) { assert data in Found(rtype, data); }
  }

  lemma PrependZero(head: seq<Packet>, tail: Option<seq<Packet>>)
    requires tail.Some?
    ensures HasZero(Prepend(head, tail).value) <==> HasZero(head) || HasZero(tail.value)
  {
    HasZeroJoin(head, tail.value);
  }

  lemma StrictRecordIsLoose(p: Packet, offset: nat)
    requires StrictRecord(p, offset).Some?
    ensures LooseRecord(p, offset) == StrictRecord(p, offset)
  {
    StrictNameIsLoose(p, offset);
    var r := StrictRecord(p, offset).value;
    assert r.data == Slice(p, StrictName(p, offset).value + 10, r.next);
  }

  lemma {:induction false} StrictZeroIsRead(p: Packet, offset: nat, n: nat)
    requires StrictZero(p, offset, n)
    ensures var found := LooseAddresses(p, offset, n); found.None? || HasZero(found.value)
    decreases n
  {
    StrictRecordIsLoose(p, offset);
    var r := StrictRecord(p, offset).value;
    var tail := LooseAddresses(p, r.next, n - 1);
    FoundZero(r.rtype, r.data);
    if tail.Some? {
      PrependZero(Found(r.rtype, r.data), tail);
      if !HasZero(Found(r.rtype, r.data)) { StrictZeroIsRead(p, r.next, n - 1); }
    }
  }

  /** On any bytes at all: what the installer calls a sinkhole, the panel reads as an all-zero address,
      unless the panel's reader meets an exception and reports no address. */
  lemma SinkholeIsRead(p: Packet)
    requires Sinkholed(Some(p))
    ensures HasZero(Parse(p).addresses) || Parse(p).addresses == []
  {
    var q := StrictQuestions(p, HEADER, Word(p, 4));
    StrictQuestionsAreLoose(p, HEADER, Word(p, 4));
    StrictZeroIsRead(p, q.value, Word(p, 6));
  }
}
