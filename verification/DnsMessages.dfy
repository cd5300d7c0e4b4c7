/** Messages as sections 4.1.1 to 4.1.4 of RFC 1035 lay them out, and how both readers take them. */
module DnsMessages {
  import opened Wrappers
  import opened DnsWire

  // --- the layout ----------------------------------------------------------

  type Label = l: Packet | 1 <= |l| < 64 witness [0]
  type U16 = n: int | 0 <= n < 0x1_0000

  // How a name ends: the root label, or a pointer to an earlier name.
  datatype Ending = Root | Pointer(target: U14)
  type U14 = n: int | 0 <= n < 0x4000

  datatype Name = Name(labels: seq<Label>, ending: Ending)
  datatype Question = Question(name: Name, qtype: U16, qclass: U16)
  datatype Answer = Answer(name: Name, rtype: U16, rclass: U16, ttlHigh: U16, ttlLow: U16, data: Data)
  type Data = d: Packet | |d| < 0x1_0000 witness []

  // What follows the answers (the authority and additional sections) is not looked at by either reader.
  datatype Message = Message(
    id: U16, flags: U16, questions: seq<Question>, answers: seq<Answer>,
    authorities: U16, additionals: U16, rest: Packet)
  {
    predicate Countable() { |questions| < 0x1_0000 && |answers| < 0x1_0000 }
  }

  function Two(n: U16): (p: Packet)
    ensures |p| == 2
  {
    [(n / 256) as Byte, (n % 256) as Byte]
  }

  function EncodeName(labels: seq<Label>, ending: Ending): (p: Packet)
    ensures p != []
  {
    if labels != [] then [|labels[0]| as Byte] + labels[0] + EncodeName(labels[1..], ending)
    else match ending
      case Root => [0]
      case Pointer(t) => [(0xC0 + t / 256) as Byte, (t % 256) as Byte]
  }

  function EncodeQuestion(q: Question): Packet {
    EncodeName(q.name.labels, q.name.ending) + (Two(q.qtype) + Two(q.qclass))
  }

  function FixedPart(a: Answer): (p: Packet)
    ensures |p| == 10
  {
    Two(a.rtype) + Two(a.rclass) + Two(a.ttlHigh) + Two(a.ttlLow) + Two(|a.data|)
  }

  function EncodeAnswer(a: Answer): Packet {
    EncodeName(a.name.labels, a.name.ending) + (FixedPart(a) + a.data)
  }

  function EncodeQuestions(qs: seq<Question>): Packet {
    if qs == [] then [] else EncodeQuestion(qs[0]) + EncodeQuestions(qs[1..])
  }

  function EncodeAnswers(answers: seq<Answer>): Packet {
    if answers == [] then [] else EncodeAnswer(answers[0]) + EncodeAnswers(answers[1..])
  }

  function Header(m: Message): (p: Packet)
    requires m.Countable()
    ensures |p| == HEADER
  {
    Two(m.id) + Two(m.flags) + Two(|m.questions|) + Two(|m.answers|) + Two(m.authorities) + Two(m.additionals)
  }

  function Encode(m: Message): Packet
    requires m.Countable()
  {
    Header(m) + (EncodeQuestions(m.questions) + (EncodeAnswers(m.answers) + m.rest))
  }

  // An A record of type 1 with four bytes, an AAAA record of type 28 with sixteen (section 3.4.1 of RFC 1035 and
  // section 2.2 of RFC 3596).
  predicate CarriesIpv4(a: Answer) { a.rtype == 1 && |a.data| == 4 }
  predicate CarriesIpv6(a: Answer) { a.rtype == 28 && |a.data| == 16 }

  // The A and AAAA data of a message, in order.
  function AddressesOf(answers: seq<Answer>): seq<Packet> {
    if answers == [] then [] else AddressIn(answers[0]) + AddressesOf(answers[1..])
  }
  function AddressIn(a: Answer): seq<Packet> { if CarriesIpv4(a) || CarriesIpv6(a) then [a.data] else [] }

  // An address of either family with every byte zero: 0.0.0.0 or ::.
  predicate IsSinkhole(a: Answer) {
    (CarriesIpv4(a) && a.data == [0, 0, 0, 0])
    || (CarriesIpv6(a) && a.data == [0, 0, 0, 0, 0, 0, 0, 0, 0, 0, 0, 0, 0, 0, 0, 0])
  }

  // --- reading it back -----------------------------------------------------

  // The packet holds these bytes at this place.
  predicate At(p: Packet, offset: nat, bytes: Packet) {
    offset + |bytes| <= |p| && p[offset..offset + |bytes|] == bytes
  }

  lemma AtParts(p: Packet, offset: nat, a: Packet, b: Packet)
    requires At(p, offset, a + b)
    ensures At(p, offset, a) && At(p, offset + |a|, b)
  {
    var s := p[offset..offset + |a + b|];
    assert s[..|a|] == a && s[|a|..] == b;
    assert p[offset..offset + |a|] == s[..|a|];
    assert p[offset + |a|..offset + |a| + |b|] == s[|a|..];
  }

  lemma AtByte(p: Packet, offset: nat, bytes: Packet, i: nat)
    requires At(p, offset, bytes) && i < |bytes|
    ensures p[offset + i] == bytes[i]
  {
    assert p[offset..offset + |bytes|][i] == p[offset + i];
  }

  lemma AtTwo(p: Packet, offset: nat, n: U16)
    requires At(p, offset, Two(n))
    ensures Word(p, offset) == n
  {
    AtByte(p, offset, Two(n), 0);
    AtByte(p, offset, Two(n), 1);
  }

  /** Both walks end just behind a well-formed name. */
  lemma {:induction false} NamesAreSkipped(p: Packet, offset: nat, labels: seq<Label>, ending: Ending)
    requires At(p, offset, EncodeName(labels, ending))
    ensures StrictName(p, offset) == Some(offset + |EncodeName(labels, ending)|)
    ensures LooseName(p, offset) == Some(offset + |EncodeName(labels, ending)|)
    decreases |labels|
  {
    var bytes := EncodeName(labels, ending);
    AtByte(p, offset, bytes, 0);
    if labels != [] {
      var head, tail := [|labels[0]| as Byte] + labels[0], EncodeName(labels[1..], ending);
      AtParts(p, offset, head, tail);
      NamesAreSkipped(p, offset + |head|, labels[1..], ending);
    } else if ending.Pointer? {
      AtByte(p, offset, bytes, 1);
    }
  }

  lemma {:induction false} QuestionsAreSkipped(p: Packet, offset: nat, qs: seq<Question>, n: nat)
    requires At(p, offset, EncodeQuestions(qs)) && n == |qs|
    ensures StrictQuestions(p, offset, n) == Some(offset + |EncodeQuestions(qs)|)
    ensures LooseQuestions(p, offset, n) == Some(offset + |EncodeQuestions(qs)|)
    decreases n
  {
    if n > 0 {
      var next := FirstQuestion(p, offset, qs);
      QuestionsAreSkipped(p, next, qs[1..], n - 1);
      OneQuestionMore(p, offset, next, n);
    }
  }

  lemma OneQuestionMore(p: Packet, offset: nat, next: nat, n: nat)
    requires n > 0 && 4 <= next <= |p|
    requires StrictName(p, offset) == Some(next - 4) && LooseName(p, offset) == Some(next - 4)
    ensures StrictQuestions(p, offset, n) == StrictQuestions(p, next, n - 1)
    ensures LooseQuestions(p, offset, n) == LooseQuestions(p, next, n - 1)
  {
  }

  // Where both walks get to behind the first of some questions, and where the others end.
  lemma FirstQuestion(p: Packet, offset: nat, qs: seq<Question>) returns (next: nat)
    requires qs != [] && At(p, offset, EncodeQuestions(qs))
    ensures next >= 4 && StrictName(p, offset) == Some(next - 4) && LooseName(p, offset) == Some(next - 4)
    ensures next <= |p| && At(p, next, EncodeQuestions(qs[1..]))
    ensures next + |EncodeQuestions(qs[1..])| == offset + |EncodeQuestions(qs)|
  {
    AtParts(p, offset, EncodeQuestion(qs[0]), EncodeQuestions(qs[1..]));
    QuestionIsSkipped(p, offset, qs[0]);
    next := offset + |EncodeQuestion(qs[0])|;
  }

  lemma QuestionIsSkipped(p: Packet, offset: nat, q: Question)
    requires At(p, offset, EncodeQuestion(q))
    ensures StrictName(p, offset) == LooseName(p, offset) == Some(offset + |EncodeQuestion(q)| - 4)
    ensures offset + |EncodeQuestion(q)| <= |p|
  {
    AtParts(p, offset, EncodeName(q.name.labels, q.name.ending), Two(q.qtype) + Two(q.qclass));
    NamesAreSkipped(p, offset, q.name.labels, q.name.ending);
  }

  lemma FixedPartIsRead(p: Packet, offset: nat, a: Answer)
    requires At(p, offset, FixedPart(a))
    ensures Word(p, offset) == a.rtype && Word(p, offset + 8) == |a.data|
  {
    var first, second := Two(a.rtype) + Two(a.rclass) + Two(a.ttlHigh) + Two(a.ttlLow), Two(|a.data|);
    AtParts(p, offset, first, second);
    AtTwo(p, offset + 8, |a.data|);
    AtParts(p, offset, Two(a.rtype) + Two(a.rclass) + Two(a.ttlHigh), Two(a.ttlLow));
    AtParts(p, offset, Two(a.rtype) + Two(a.rclass), Two(a.ttlHigh));
    AtParts(p, offset, Two(a.rtype), Two(a.rclass));
    AtTwo(p, offset, a.rtype);
  }

  /** A well-formed record is read alike by both, with its own type and data. */
  lemma AnswerIsRead(p: Packet, offset: nat, a: Answer)
    requires At(p, offset, EncodeAnswer(a))
    ensures StrictRecord(p, offset) == Some(Record(a.rtype, a.data, offset + |EncodeAnswer(a)|))
    ensures LooseRecord(p, offset) == StrictRecord(p, offset)
  {
    var name := EncodeName(a.name.labels, a.name.ending);
    AtParts(p, offset, name, FixedPart(a) + a.data);
    AtParts(p, offset + |name|, FixedPart(a), a.data);
    NamesAreSkipped(p, offset, a.name.labels, a.name.ending);
    FixedPartIsRead(p, offset + |name|, a);
    StrictRecordIsLoose(p, offset);
  }

  // The first of some answers, and where the others start and end.
  lemma FirstAnswer(p: Packet, offset: nat, answers: seq<Answer>) returns (r: Record)
    requires answers != [] && At(p, offset, EncodeAnswers(answers))
    ensures StrictRecord(p, offset) == Some(r) && LooseRecord(p, offset) == Some(r)
    ensures r.rtype == answers[0].rtype && r.data == answers[0].data
    ensures At(p, r.next, EncodeAnswers(answers[1..]))
    ensures r.next + |EncodeAnswers(answers[1..])| == offset + |EncodeAnswers(answers)|
  {
    AtParts(p, offset, EncodeAnswer(answers[0]), EncodeAnswers(answers[1..]));
    AnswerIsRead(p, offset, answers[0]);
    r := StrictRecord(p, offset).value;
  }

  // Both readers find these addresses in the next n records.
  predicate Reads(p: Packet, offset: nat, n: nat, addresses: seq<Packet>) {
    LooseAddresses(p, offset, n) == Some(addresses) && (StrictZero(p, offset, n) <==> HasZero(addresses))
  }

  // Both readers take the next records for these answers, one by one, and get to `end`.
  predicate TakenFor(p: Packet, offset: nat, answers: seq<Answer>, end: nat)
    decreases |answers|
  {
    if answers == [] then offset == end
    else
      && StrictRecord(p, offset).Some? && LooseRecord(p, offset) == StrictRecord(p, offset)
      && var r := StrictRecord(p, offset).value;
         r.rtype == answers[0].rtype && r.data == answers[0].data && TakenFor(p, r.next, answers[1..], end)
  }

  lemma {:induction false} AnswersAreTaken(p: Packet, offset: nat, answers: seq<Answer>, n: nat, end: nat)
    requires At(p, offset, EncodeAnswers(answers)) && n == |answers| && end == offset + |EncodeAnswers(answers)|
    ensures TakenFor(p, offset, answers, end)
    decreases n
  {
    if n > 0 {
      var r := FirstAnswer(p, offset, answers);
      AnswersAreTaken(p, r.next, answers[1..], n - 1, end);
    }
  }

  lemma {:induction false} TakenAreRead(p: Packet, offset: nat, answers: seq<Answer>, n: nat, end: nat)
    requires TakenFor(p, offset, answers, end) && n == |answers|
    ensures Reads(p, offset, n, AddressesOf(answers))
    decreases n
  {
    if n == 0 {
      NothingIsRead(p, offset, answers);
    } else {
      var r := StrictRecord(p, offset).value;
      TakenAreRead(p, r.next, answers[1..], n - 1, end);
      OneMoreAnswer(p, offset, r, n - 1, AddressesOf(answers[1..]));
      FirstAddress(answers, r);
    }
  }

  lemma NothingIsRead(p: Packet, offset: nat, none: seq<Answer>)
    requires none == []
    ensures Reads(p, offset, 0, AddressesOf(none))
  {
  }

  lemma FirstAddress(answers: seq<Answer>, r: Record)
    requires answers != [] && r.rtype == answers[0].rtype && r.data == answers[0].data
    ensures AddressesOf(answers) == Found(r.rtype, r.data) + AddressesOf(answers[1..])
  {
    assert Found(r.rtype, r.data) == AddressIn(answers[0]);
  }

  lemma OneMoreAnswer(p: Packet, offset: nat, r: Record, n: nat, addresses: seq<Packet>)
    requires StrictRecord(p, offset) == Some(r) && LooseRecord(p, offset) == Some(r)
    requires Reads(p, r.next, n, addresses)
    ensures Reads(p, offset, n + 1, Found(r.rtype, r.data) + addresses)
  {
    FoundZero(r.rtype, r.data);
    HasZeroJoin(Found(r.rtype, r.data), addresses);
  }

  lemma HeaderIsRead(p: Packet, m: Message)
    requires m.Countable() && At(p, 0, Header(m))
    ensures Word(p, 2) == m.flags && Word(p, 4) == |m.questions| && Word(p, 6) == |m.answers|
  {
    var four := Two(m.id) + Two(m.flags) + Two(|m.questions|) + Two(|m.answers|);
    AtParts(p, 0, four + Two(m.authorities), Two(m.additionals));
    AtParts(p, 0, four, Two(m.authorities));
    AtParts(p, 0, Two(m.id) + Two(m.flags) + Two(|m.questions|), Two(|m.answers|));
    AtParts(p, 0, Two(m.id) + Two(m.flags), Two(|m.questions|));
    AtParts(p, 0, Two(m.id), Two(m.flags));
    AtTwo(p, 2, m.flags);
    AtTwo(p, 4, |m.questions|);
    AtTwo(p, 6, |m.answers|);
  }

  lemma Layout(p: Packet, m: Message)
    requires m.Countable() && p == Encode(m)
    ensures At(p, 0, Header(m)) && At(p, HEADER, EncodeQuestions(m.questions))
    ensures At(p, HEADER + |EncodeQuestions(m.questions)|, EncodeAnswers(m.answers))
  {
    var qs, tail := EncodeQuestions(m.questions), EncodeAnswers(m.answers) + m.rest;
    assert At(p, 0, Header(m) + (qs + tail)) by { assert p[0..|p|] == p; }
    AtParts(p, 0, Header(m), qs + tail);
    AtParts(p, HEADER, qs, tail);
    AtParts(p, HEADER + |qs|, EncodeAnswers(m.answers), m.rest);
  }

  // Both readers, over a packet whose three counts and two walks are known.
  lemma ReadFrom(p: Packet, first: nat, answers: seq<Answer>, end: nat)
    requires |p| >= HEADER && Word(p, 6) == |answers|
    requires StrictQuestions(p, HEADER, Word(p, 4)) == Some(first)
    requires LooseQuestions(p, HEADER, Word(p, 4)) == Some(first)
    requires TakenFor(p, first, answers, end)
    ensures Parse(p) == Parsed(Some(Word(p, 2) % 16), AddressesOf(answers))
    ensures Sinkholed(Some(p)) <==> HasZero(AddressesOf(answers))
  {
    TakenAreRead(p, first, answers, |answers|, end);
  }

  lemma SinkholeIsZero(a: Answer)
    ensures IsSinkhole(a) <==> (CarriesIpv4(a) || CarriesIpv6(a)) && Zero(a.data)
  {
    if CarriesIpv4(a) && Zero(a.data) { assert a.data == [0, 0, 0, 0]; }
    if CarriesIpv6(a) && Zero(a.data) { assert a.data == [0, 0, 0, 0, 0, 0, 0, 0, 0, 0, 0, 0, 0, 0, 0, 0]; }
  }

  lemma {:induction false} ZeroAmongAnswers(answers: seq<Answer>)
    ensures HasZero(AddressesOf(answers)) <==> exists i :: 0 <= i < |answers| && IsSinkhole(answers[i])
  {
    if answers != [] {
      var first, rest := answers[0], answers[1..];
      var own := AddressIn(first);
      ZeroAmongAnswers(rest);
      SinkholeIsZero(first);
      HasZeroJoin(own, AddressesOf(rest));
      if own != [] { assert HasZero(own) <==> Zero(own[0]); }
      if i :| 0 <= i < |rest| && IsSinkhole(rest[i]) { assert answers[i + 1] == rest[i]; }
      if i :| 0 <= i < |answers| && IsSinkhole(answers[i]) { assert i == 0 || answers[i] == rest[i - 1]; }
    }
  }

  /** On every well-formed message the panel reads the response code and exactly the A and AAAA data in
      order, and the installer sees a sinkhole exactly when one of the answers is an address with every byte
      zero, of either family; so that the panel then reads one. */
  lemma ReadersAgree(m: Message)
    requires m.Countable()
    ensures Parse(Encode(m)) == Parsed(Some(m.flags % 16), AddressesOf(m.answers))
    ensures Sinkholed(Some(Encode(m))) <==> exists i :: 0 <= i < |m.answers| && IsSinkhole(m.answers[i])
    ensures Sinkholed(Some(Encode(m))) <==> HasZero(Parse(Encode(m)).addresses)
  {
    MessageIsRead(m);
    ZeroAmongAnswers(m.answers);
  }

  lemma MessageIsRead(m: Message)
    requires m.Countable()
    ensures Parse(Encode(m)) == Parsed(Some(m.flags % 16), AddressesOf(m.answers))
    ensures Sinkholed(Some(Encode(m))) <==> HasZero(AddressesOf(m.answers))
  {
    var first, end := MessageIsTaken(Encode(m), m);
    ReadFrom(Encode(m), first, m.answers, end);
  }

  // Both walks through a message: its counts, where its questions end, and its answers one by one.
  lemma MessageIsTaken(p: Packet, m: Message) returns (first: nat, end: nat)
    requires m.Countable() && p == Encode(m)
    ensures |p| >= HEADER && Word(p, 2) == m.flags && Word(p, 4) == |m.questions| && Word(p, 6) == |m.answers|
    ensures StrictQuestions(p, HEADER, |m.questions|) == LooseQuestions(p, HEADER, |m.questions|) == Some(first)
    ensures first == HEADER + |EncodeQuestions(m.questions)| && TakenFor(p, first, m.answers, end)
  {
    Layout(p, m);
    HeaderIsRead(p, m);
    first := QuestionsOf(p, m.questions);
    end := AnswersOf(p, first, m.answers);
  }

  lemma QuestionsOf(p: Packet, qs: seq<Question>) returns (first: nat)
    requires At(p, HEADER, EncodeQuestions(qs))
    ensures first == HEADER + |EncodeQuestions(qs)|
    ensures StrictQuestions(p, HEADER, |qs|) == LooseQuestions(p, HEADER, |qs|) == Some(first)
  {
    QuestionsAreSkipped(p, HEADER, qs, |qs|);
    first := HEADER + |EncodeQuestions(qs)|;
  }

  lemma AnswersOf(p: Packet, first: nat, answers: seq<Answer>) returns (end: nat)
    requires At(p, first, EncodeAnswers(answers))
    ensures TakenFor(p, first, answers, end)
  {
    end := first + |EncodeAnswers(answers)|;
    AnswersAreTaken(p, first, answers, |answers|, end);
  }

  /** One sinkhole of either family in any message is seen by both readers. */
  lemma SinkholesOfBothFamilies(m: Message)
    requires m.Countable() && |m.answers| == 1
    requires || (m.answers[0].rtype == 1 && m.answers[0].data == [0, 0, 0, 0])
             || (m.answers[0].rtype == 28 && m.answers[0].data == [0, 0, 0, 0, 0, 0, 0, 0, 0, 0, 0, 0, 0, 0, 0, 0])
    ensures Sinkholed(Some(Encode(m))) && Parse(Encode(m)).addresses == [m.answers[0].data]
  {
    ReadersAgree(m);
    assert IsSinkhole(m.answers[0]) && m.answers[1..] == [];
    assert AddressesOf(m.answers) == [m.answers[0].data] + AddressesOf([]);
  }

  // --- queries -------------------------------------------------------------

  // The query of one name, without compression, in class IN.
  function Query(id: U16, labels: seq<Label>, qtype: U16): Message {
    Message(id, 0x0100, [Question(Name(labels, Root), qtype, 1)], [], 0, 0, [])
  }

  /** The panel's query builder, label by label. */
  method BuildQuery(labels: seq<Label>, qtype: U16, id: U16) returns (p: Packet)
    ensures p == Encode(Query(id, labels, qtype))
  {
    var qname: Packet := [];
    for i := 0 to |labels|
      invariant EncodeName(labels, Root) == qname + EncodeName(labels[i..], Root)
    {
      var piece: Packet := [|labels[i]| as Byte] + labels[i];
      assert labels[i..][1..] == labels[i + 1..];
      assert (qname + piece) + EncodeName(labels[i + 1..], Root) == qname + (piece + EncodeName(labels[i + 1..], Root));
      qname := qname + piece;
    }
    qname := qname + [0];
    p := Two(id) + Two(0x0100) + Two(1) + Two(0) + Two(0) + Two(0) + qname + (Two(qtype) + Two(1));
    QueryBytes(id, labels, qtype);
  }

  lemma QueryBytes(id: U16, labels: seq<Label>, qtype: U16)
    ensures Encode(Query(id, labels, qtype))
         == Two(id) + Two(0x0100) + Two(1) + Two(0) + Two(0) + Two(0)
            + EncodeName(labels, Root) + (Two(qtype) + Two(1))
  {
    var m := Query(id, labels, qtype);
    var q := m.questions[0];
    assert m.questions[1..] == [] && EncodeQuestions(m.questions) == EncodeQuestion(q) + [];
    assert Encode(m) == Header(m) + EncodeQuestion(q);
  }

  /** The walk of a built query ends at its last byte, for either walker. */
  lemma QueryIsWalked(id: U16, labels: seq<Label>, qtype: U16)
    ensures var p := Encode(Query(id, labels, qtype));
            && StrictQuestions(p, HEADER, 1) == Some(|p|)
            && LooseQuestions(p, HEADER, 1) == Some(|p|)
            && Parse(p) == Parsed(Some(0), [])
  {
    var m := Query(id, labels, qtype);
    var p := Encode(m);
    ReadersAgree(m);
    assert At(p, 0, Header(m) + EncodeQuestions(m.questions)) by {
      assert Header(m) + EncodeQuestions(m.questions) == p && p[0..|p|] == p;
    }
    AtParts(p, 0, Header(m), EncodeQuestions(m.questions));
    QuestionsAreSkipped(p, HEADER, m.questions, |m.questions|);
  }
}
