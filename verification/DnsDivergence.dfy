/** Where the two readers of a response part ways: exactly which byte strings they read alike, and responses
    a name server could have been cut off in that they do not. */
module DnsDivergence {
  import opened Wrappers
  import opened DnsWire
  import opened DnsMessages

  /** The installer's verdict is what the panel's addresses say. */
  predicate Agree(p: Packet) { Sinkholed(Some(p)) <==> HasZero(Parse(p).addresses) }

  // --- how far the strict walk gets ----------------------------------------

  // A name on which the strict walk gives up because of a label type that is neither length nor pointer.
  predicate HitsReserved(p: Packet, offset: nat)
    decreases |p| - offset
  {
    offset < |p| && p[offset] != 0 && !IsPointer(p[offset])
    && (IsReserved(p[offset]) || HitsReserved(p, offset + 1 + p[offset] as int))
  }

  // What ends the strict walk over the records: nothing, the packet's end before a record's data, the packet's
  // end inside the data of the last record announced, or a reserved label type in a record's name.
  datatype Stop = Complete | Short | InLastData(r: Record) | Reserved(at: nat, left: nat)

  function StopIn(p: Packet, offset: nat, n: nat): Stop
    decreases n
  {
    if n == 0 then Complete
    else match StrictRecord(p, offset)
      case Some(r) => StopIn(p, r.next, n - 1)
      case None => StopAt(p, offset, n)
  }

  function StopAt(p: Packet, offset: nat, n: nat): Stop {
    if HitsReserved(p, offset) then Reserved(offset, n)
    else if n == 1 && LooseRecord(p, offset).Some? then InLastData(LooseRecord(p, offset).value)
    else Short
  }

  // The same for the questions, with the place where the records begin.
  datatype QuestionStop = Behind(records: nat) | CutShort | ReservedIn(at: nat, left: nat)

  function StopInQuestions(p: Packet, offset: nat, n: nat): QuestionStop
    decreases n
  {
    if n == 0 then Behind(offset)
    else if StrictName(p, offset).None? then (if HitsReserved(p, offset) then ReservedIn(offset, n) else CutShort)
    else if StrictName(p, offset).value + 4 > |p| then CutShort
    else StopInQuestions(p, StrictName(p, offset).value + 4, n - 1)
  }

  /** Every question and record the header announces lies wholly in the packet. */
  predicate Whole(p: Packet) {
    |p| >= HEADER
    && var q := StopInQuestions(p, HEADER, Word(p, 4));
       q.Behind? && StopIn(p, q.records, Word(p, 6)).Complete?
  }

  // The records the strict walk reads, and those the loose walk reads before it meets an exception.
  function Readable(p: Packet, offset: nat, n: nat): seq<Record>
    decreases n
  {
    if n == 0 || StrictRecord(p, offset).None? then []
    else
      var r := StrictRecord(p, offset).value;
      [r] + Readable(p, r.next, n - 1)
  }

  function Walked(p: Packet, offset: nat, n: nat): seq<Record>
    decreases n
  {
    if n == 0 || LooseRecord(p, offset).None? then []
    else
      var r := LooseRecord(p, offset).value;
      [r] + Walked(p, r.next, n - 1)
  }

  predicate IsZero(r: Record) { IsAddress(r.rtype, r.data) && Zero(r.data) }
  predicate SomeZero(records: seq<Record>) { exists i :: 0 <= i < |records| && IsZero(records[i]) }

  // The loose walk gets through all n records, and one of them is a zero address.
  predicate WalksOverZero(p: Packet, offset: nat, n: nat) {
    |Walked(p, offset, n)| == n && SomeZero(Walked(p, offset, n))
  }

  /** Where the strict walk stops decides: a packet cut short is read alike unless one of the records before
      the cut is a zero address; data cut in the last record, unless those bytes alone look like one. Behind a
      reserved label type the panel walks on, taking the type for a length: the readers then agree if it gets
      through all records announced and there was a zero address before, or if there was none before and it
      does not both get through and pass one. */
  predicate ReadAlike(p: Packet) {
    |p| < HEADER
    || match StopInQuestions(p, HEADER, Word(p, 4))
       case CutShort => true
       case ReservedIn(at, left) =>
         var records := LooseQuestions(p, at, left);
         records.Some? ==> !WalksOverZero(p, records.value, Word(p, 6))
       case Behind(records) =>
         var zeroBefore := SomeZero(Readable(p, records, Word(p, 6)));
         match StopIn(p, records, Word(p, 6))
         case Complete => true
         case Short => !zeroBefore
         case InLastData(r) => zeroBefore || !IsZero(r)
         case Reserved(at, left) =>
           if zeroBefore then |Walked(p, at, left)| == left else !WalksOverZero(p, at, left)
  }

  lemma SomeZeroCons(r: Record, rest: seq<Record>)
    ensures SomeZero([r] + rest) <==> IsZero(r) || SomeZero(rest)
  {
    var all := [r] + rest;
    assert all[0] == r;
    if SomeZero(rest) {
      var i :| 0 <= i < |rest| && IsZero(rest[i]);
      assert all[i + 1] == rest[i];
    }
    if i :| 0 <= i < |all| && IsZero(all[i]) { assert i == 0 || all[i] == rest[i - 1]; }
  }

  // The installer's verdict is about the records it reads.
  lemma {:induction false} StrictZeroIsReadable(p: Packet, offset: nat, n: nat)
    ensures StrictZero(p, offset, n) <==> SomeZero(Readable(p, offset, n))
    decreases n
  {
    if n > 0 && StrictRecord(p, offset).Some? {
      var r := StrictRecord(p, offset).value;
      StrictZeroIsReadable(p, r.next, n - 1);
      SomeZeroCons(r, Readable(p, r.next, n - 1));
    }
  }

  // The panel's addresses are about the records it walks, if it gets through them.
  lemma {:induction false} AddressesAreWalked(p: Packet, offset: nat, n: nat)
    ensures |Walked(p, offset, n)| <= n
    ensures var found := LooseAddresses(p, offset, n);
            && (found.Some? <==> |Walked(p, offset, n)| == n)
            && (found.Some? ==> (HasZero(found.value) <==> SomeZero(Walked(p, offset, n))))
    decreases n
  {
    if n > 0 && LooseRecord(p, offset).Some? {
      var r := LooseRecord(p, offset).value;
      AddressesAreWalked(p, r.next, n - 1);
      OneMoreWalked(r, Walked(p, r.next, n - 1), LooseAddresses(p, r.next, n - 1), n - 1);
    }
  }

  lemma OneMoreWalked(r: Record, records: seq<Record>, tail: Option<seq<Packet>>, n: nat)
    requires |records| <= n && (tail.Some? <==> |records| == n)
    requires tail.Some? ==> (HasZero(tail.value) <==> SomeZero(records))
    ensures var found := Prepend(Found(r.rtype, r.data), tail);
            && (found.Some? <==> |[r] + records| == n + 1)
            && (found.Some? ==> (HasZero(found.value) <==> SomeZero([r] + records)))
  {
    if tail.Some? {
      SomeZeroCons(r, records);
      FoundZero(r.rtype, r.data);
      PrependZero(Found(r.rtype, r.data), tail);
    }
  }

  predicate ReadsZero(rest: Option<seq<Packet>>) { rest.Some? && HasZero(rest.value) }

  // What the panel makes of the rest, from a question on.
  function RestFromQuestion(p: Packet, offset: nat, n: nat): Option<seq<Packet>>
    requires |p| >= HEADER
  {
    var q := LooseQuestions(p, offset, n);
    if q.None? then None else LooseAddresses(p, q.value, Word(p, 6))
  }

  // --- beyond the stop -----------------------------------------------------

  /** Without a reserved label type the loose walk gets no further than the strict one, but for one byte of a
      pointer cut in two. */
  lemma {:induction false} OnlyReservedIsWalkedOver(p: Packet, offset: nat)
    requires StrictName(p, offset).None? && !HitsReserved(p, offset)
    ensures LooseName(p, offset).None? || LooseName(p, offset).value > |p|
    decreases |p| - offset
  {
    if offset < |p| && p[offset] != 0 && !IsPointer(p[offset]) {
      var next := offset + 1 + p[offset] as int;
      if next <= |p| { OnlyReservedIsWalkedOver(p, next); }
    }
  }

  // Nothing is read behind the end.
  lemma BehindTheEnd(p: Packet, offset: nat, questions: nat, n: nat)
    requires offset > |p|
    ensures LooseQuestions(p, offset, questions) == if questions == 0 then Some(offset) else None
    ensures LooseAddresses(p, offset, n) == if n == 0 then Some([]) else None
  {
  }

  // What the panel has read of n records, given where the strict walk stopped.
  predicate Settled(p: Packet, offset: nat, n: nat) {
    var seen, found := StrictZero(p, offset, n), LooseAddresses(p, offset, n);
    match StopIn(p, offset, n)
    case Complete => found.Some? && (HasZero(found.value) <==> seen)
    case Short => found.None?
    case InLastData(r) =>
      found.Some? && (HasZero(found.value) <==> seen || (IsAddress(r.rtype, r.data) && Zero(r.data)))
    case Reserved(at, left) =>
      var rest := LooseAddresses(p, at, left);
      found.Some? == rest.Some? && (found.Some? ==> (HasZero(found.value) <==> seen || HasZero(rest.value)))
  }

  lemma SettledAtStop(p: Packet, offset: nat, n: nat)
    requires n > 0 && StrictRecord(p, offset).None?
    ensures Settled(p, offset, n)
  {
    if !HitsReserved(p, offset) {
      if StrictName(p, offset).None? {
        OnlyReservedIsWalkedOver(p, offset);
      } else {
        StrictNameIsLoose(p, offset);
      }
      if LooseRecord(p, offset).Some? {
        var r := LooseRecord(p, offset).value;
        BehindTheEnd(p, r.next, 0, n - 1);
        FoundZero(r.rtype, r.data);
        PrependZero(Found(r.rtype, r.data), Some([]));
      }
    }
  }

  lemma SettledBefore(p: Packet, offset: nat, n: nat)
    requires n > 0 && StrictRecord(p, offset).Some?
    requires Settled(p, StrictRecord(p, offset).value.next, n - 1)
    ensures Settled(p, offset, n)
  {
    StrictRecordIsLoose(p, offset);
    var r := StrictRecord(p, offset).value;
    FoundZero(r.rtype, r.data);
    var tail := LooseAddresses(p, r.next, n - 1);
    if tail.Some? { PrependZero(Found(r.rtype, r.data), tail); }
  }

  lemma {:induction false} RecordsSettle(p: Packet, offset: nat, n: nat)
    ensures Settled(p, offset, n)
    decreases n
  {
    if n > 0 {
      if StrictRecord(p, offset).Some? {
        RecordsSettle(p, StrictRecord(p, offset).value.next, n - 1);
        SettledBefore(p, offset, n);
      } else {
        SettledAtStop(p, offset, n);
      }
    }
  }

  // What the panel reads of a whole packet, given where the strict walk over the questions stopped.
  predicate QuestionsSettled(p: Packet, offset: nat, n: nat)
    requires |p| >= HEADER
  {
    match StopInQuestions(p, offset, n)
    case Behind(records) => StrictQuestions(p, offset, n) == LooseQuestions(p, offset, n) == Some(records)
    case CutShort => StrictQuestions(p, offset, n).None? && !ReadsZero(RestFromQuestion(p, offset, n))
    case ReservedIn(at, left) =>
      StrictQuestions(p, offset, n).None? && RestFromQuestion(p, offset, n) == RestFromQuestion(p, at, left)
  }

  lemma {:induction false} QuestionsSettle(p: Packet, offset: nat, n: nat)
    requires |p| >= HEADER
    ensures QuestionsSettled(p, offset, n)
    decreases n
  {
    if n > 0 {
      var name := StrictName(p, offset);
      if name.Some? {
        StrictNameIsLoose(p, offset);
        if name.value + 4 > |p| {
          BehindTheEnd(p, name.value + 4, n - 1, Word(p, 6));
        } else {
          QuestionsSettle(p, name.value + 4, n - 1);
        }
      } else if !HitsReserved(p, offset) {
        OnlyReservedIsWalkedOver(p, offset);
        if LooseName(p, offset).Some? { BehindTheEnd(p, LooseName(p, offset).value + 4, n - 1, Word(p, 6)); }
      }
    }
  }

  /** On any bytes whatever: the two readers agree if and only if the strict walk stops where `ReadAlike` says. */
  lemma AgreeExactly(p: Packet)
    ensures Agree(p) <==> ReadAlike(p)
  {
    if |p| >= HEADER {
      QuestionsSettle(p, HEADER, Word(p, 4));
      match StopInQuestions(p, HEADER, Word(p, 4))
      case CutShort =>
      case ReservedIn(at, left) =>
        var records := LooseQuestions(p, at, left);
        if records.Some? { AddressesAreWalked(p, records.value, Word(p, 6)); }
      case Behind(records) =>
        RecordsSettle(p, records, Word(p, 6));
        StrictZeroIsReadable(p, records, Word(p, 6));
        var stop := StopIn(p, records, Word(p, 6));
        if stop.Reserved? { AddressesAreWalked(p, stop.at, stop.left); }
    }
  }

  /** In particular on every packet that holds all it announces, well-formed or not in any other way. */
  lemma WholeResponsesAreReadAlike(p: Packet)
    requires Whole(p)
    ensures Agree(p)
  {
    AgreeExactly(p);
  }

  // --- every well-formed message is whole ----------------------------------

  lemma {:induction false} QuestionsAreThere(p: Packet, offset: nat, qs: seq<Question>, n: nat)
    requires At(p, offset, EncodeQuestions(qs)) && n == |qs|
    ensures StopInQuestions(p, offset, n) == Behind(offset + |EncodeQuestions(qs)|)
    decreases n
  {
    if n > 0 {
      var next := FirstQuestion(p, offset, qs);
      QuestionsAreThere(p, next, qs[1..], n - 1);
      BehindOneMore(p, offset, next, n);
    }
  }

  lemma BehindOneMore(p: Packet, offset: nat, next: nat, n: nat)
    requires n > 0 && next >= 4 && StrictName(p, offset) == Some(next - 4) && next <= |p|
    ensures StopInQuestions(p, offset, n) == StopInQuestions(p, next, n - 1)
  {
  }

  lemma {:induction false} AnswersAreThere(p: Packet, offset: nat, answers: seq<Answer>, n: nat, end: nat)
    requires TakenFor(p, offset, answers, end) && n == |answers|
    ensures StopIn(p, offset, n) == Complete
    decreases n
  {
    if n > 0 { AnswersAreThere(p, StrictRecord(p, offset).value.next, answers[1..], n - 1, end); }
  }

  lemma MessagesAreWhole(m: Message)
    requires m.Countable()
    ensures Whole(Encode(m))
  {
    var first, end := MessageIsTaken(Encode(m), m);
    QuestionsOfMessage(Encode(m), m);
    WholeFrom(Encode(m), |m.questions|, first, m.answers, end);
  }

  lemma QuestionsOfMessage(p: Packet, m: Message)
    requires m.Countable() && p == Encode(m)
    ensures StopInQuestions(p, HEADER, |m.questions|) == Behind(HEADER + |EncodeQuestions(m.questions)|)
  {
    Layout(p, m);
    QuestionsAreThere(p, HEADER, m.questions, |m.questions|);
  }

  lemma WholeFrom(p: Packet, questions: nat, first: nat, answers: seq<Answer>, end: nat)
    requires |p| >= HEADER && Word(p, 4) == questions && Word(p, 6) == |answers|
    requires StopInQuestions(p, HEADER, questions) == Behind(first) && TakenFor(p, first, answers, end)
    ensures Whole(p)
  {
    AnswersAreThere(p, first, answers, |answers|, end);
  }

  // --- cut-off messages ----------------------------------------------------

  // A message up to and including its questions, and some bytes instead of the rest.
  function Headed(m: Message, rest: Packet): Packet
    requires m.Countable()
  {
    Header(m) + (EncodeQuestions(m.questions) + rest)
  }

  lemma HeadedParts(p: Packet, m: Message, rest: Packet)
    requires m.Countable() && p == Headed(m, rest)
    ensures At(p, 0, Header(m)) && At(p, HEADER, EncodeQuestions(m.questions))
    ensures var o := HEADER + |EncodeQuestions(m.questions)|; At(p, o, rest) && |p| == o + |rest|
  {
    assert At(p, 0, Header(m) + (EncodeQuestions(m.questions) + rest)) by { assert p[0..|p|] == p; }
    AtParts(p, 0, Header(m), EncodeQuestions(m.questions) + rest);
    AtParts(p, HEADER, EncodeQuestions(m.questions), rest);
  }

  // Both readers get to the records, which start at `first`.
  predicate Reaches(p: Packet, first: nat, answers: nat) {
    && |p| >= HEADER && Word(p, 6) == answers
    && StrictQuestions(p, HEADER, Word(p, 4)) == Some(first)
    && LooseQuestions(p, HEADER, Word(p, 4)) == Some(first)
  }

  lemma HeadedReaches(p: Packet, m: Message, rest: Packet)
    requires m.Countable() && p == Headed(m, rest)
    ensures Reaches(p, HEADER + |EncodeQuestions(m.questions)|, |m.answers|)
  {
    HeadedParts(p, m, rest);
    HeaderIsRead(p, m);
    QuestionsAreSkipped(p, HEADER, m.questions, |m.questions|);
  }

  lemma Verdicts(p: Packet, first: nat, answers: nat)
    requires Reaches(p, first, answers)
    ensures Sinkholed(Some(p)) <==> StrictZero(p, first, answers)
    ensures var found := LooseAddresses(p, first, answers);
            && Parse(p).addresses == (if found.None? then [] else found.value)
            && (HasZero(Parse(p).addresses) <==> ReadsZero(found))
  {
  }

  // n records that hold these addresses, and k more records behind them.
  predicate Walks(p: Packet, offset: nat, n: nat, k: nat, addresses: seq<Packet>, end: nat) {
    && LooseAddresses(p, offset, n + k) == Prepend(addresses, LooseAddresses(p, end, k))
    && (StrictZero(p, offset, n + k) <==> HasZero(addresses) || StrictZero(p, end, k))
  }

  lemma WalkRecord(p: Packet, offset: nat, r: Record, n: nat, k: nat, addresses: seq<Packet>, end: nat)
    requires StrictRecord(p, offset) == Some(r) && LooseRecord(p, offset) == Some(r)
    requires Walks(p, r.next, n, k, addresses, end)
    ensures Walks(p, offset, n + 1, k, Found(r.rtype, r.data) + addresses, end)
  {
    FoundZero(r.rtype, r.data);
    HasZeroJoin(Found(r.rtype, r.data), addresses);
    PrependTwice(Found(r.rtype, r.data), addresses, LooseAddresses(p, end, k));
    assert LooseAddresses(p, offset, n + k + 1) == Prepend(Found(r.rtype, r.data), LooseAddresses(p, r.next, n + k));
  }

  lemma {:induction false} WalkTaken(p: Packet, offset: nat, answers: seq<Answer>, n: nat, k: nat, end: nat)
    requires TakenFor(p, offset, answers, end) && n == |answers|
    ensures Walks(p, offset, n, k, AddressesOf(answers), end)
    decreases n
  {
    if n == 0 {
      PrependNothing(LooseAddresses(p, offset, k));
    } else {
      var r := StrictRecord(p, offset).value;
      WalkTaken(p, r.next, answers[1..], n - 1, k, end);
      FirstAddress(answers, r);
      WalkRecord(p, offset, r, n - 1, k, AddressesOf(answers[1..]), end);
    }
  }

  lemma WalkOn(p: Packet, offset: nat, answers: seq<Answer>, n: nat, k: nat, end: nat)
    requires At(p, offset, EncodeAnswers(answers)) && n == |answers| && end == offset + |EncodeAnswers(answers)|
    ensures Walks(p, offset, n, k, AddressesOf(answers), end)
  {
    AnswersAreTaken(p, offset, answers, n, end);
    WalkTaken(p, offset, answers, n, k, end);
  }

  // A message up to and including its i-th answer.
  function CutBehind(m: Message, i: nat): Packet
    requires m.Countable() && i <= |m.answers|
  {
    Headed(m, EncodeAnswers(m.answers[..i]))
  }

  /** Any message cut off behind its i-th answer, with a sinkhole among those: the installer has seen it, the
      panel's reader meets an exception and drops what it had read. */
  lemma CutAfterZero(m: Message, i: nat)
    requires m.Countable() && i < |m.answers| && HasZero(AddressesOf(m.answers[..i]))
    ensures var p := CutBehind(m, i);
            p <= Encode(m) && Sinkholed(Some(p)) && Parse(p).addresses == [] && !Agree(p)
  {
    var answers := m.answers[..i];
    var p := Headed(m, EncodeAnswers(answers));
    HeadedParts(p, m, EncodeAnswers(answers));
    HeadedReaches(p, m, EncodeAnswers(answers));
    NothingBehind(p, HEADER + |EncodeQuestions(m.questions)|, answers, |m.answers| - i);
    CutIsPrefix(m, i);
  }

  lemma NothingBehind(p: Packet, first: nat, answers: seq<Answer>, k: nat)
    requires Reaches(p, first, |answers| + k) && k > 0 && HasZero(AddressesOf(answers))
    requires At(p, first, EncodeAnswers(answers)) && |p| == first + |EncodeAnswers(answers)|
    ensures Sinkholed(Some(p)) && Parse(p).addresses == [] && !Agree(p)
  {
    WalkOn(p, first, answers, |answers|, k, |p|);
    NothingMore(p, first, |answers|, k, AddressesOf(answers));
  }

  lemma NothingMore(p: Packet, first: nat, n: nat, k: nat, addresses: seq<Packet>)
    requires Reaches(p, first, n + k) && k > 0 && HasZero(addresses) && Walks(p, first, n, k, addresses, |p|)
    ensures Sinkholed(Some(p)) && Parse(p).addresses == [] && !Agree(p)
  {
    assert LooseRecord(p, |p|).None?;
    Verdicts(p, first, n + k);
  }

  lemma {:induction false} AnswersSplit(answers: seq<Answer>, i: nat)
    requires i <= |answers|
    ensures EncodeAnswers(answers) == EncodeAnswers(answers[..i]) + EncodeAnswers(answers[i..])
    decreases i
  {
    if i > 0 {
      AnswersSplit(answers[1..], i - 1);
      assert answers[..i][1..] == answers[1..][..i - 1] && answers[1..][i - 1..] == answers[i..];
      JoinThree(EncodeAnswer(answers[0]), EncodeAnswers(answers[1..][..i - 1]), EncodeAnswers(answers[i..]));
    } else {
      assert answers[..0] == [] && answers[0..] == answers;
    }
  }

  lemma JoinThree(a: Packet, b: Packet, c: Packet)
    ensures a + (b + c) == (a + b) + c
  {
  }

  lemma CutIsPrefix(m: Message, i: nat)
    requires m.Countable() && i <= |m.answers|
    ensures CutBehind(m, i) <= Encode(m)
  {
    AnswersSplit(m.answers, i);
    PrefixOfTail(Header(m), EncodeQuestions(m.questions), EncodeAnswers(m.answers[..i]),
                 EncodeAnswers(m.answers[i..]), m.rest);
  }

  lemma PrefixOfTail(a: Packet, b: Packet, c: Packet, d: Packet, e: Packet)
    ensures a + (b + c) <= a + (b + ((c + d) + e))
  {
    assert a + (b + ((c + d) + e)) == (a + (b + c)) + (d + e);
  }

  // An answer cut off inside its data.
  function CutAnswer(a: Answer, w: nat): Packet
    requires w <= |a.data|
  {
    EncodeName(a.name.labels, a.name.ending) + (FixedPart(a) + a.data[..w])
  }

  lemma CutAnswerIsRead(p: Packet, offset: nat, a: Answer, w: nat)
    requires w < |a.data| && At(p, offset, CutAnswer(a, w)) && |p| == offset + |CutAnswer(a, w)|
    ensures StrictRecord(p, offset).None?
    ensures LooseRecord(p, offset).Some?
    ensures var r := LooseRecord(p, offset).value; r.rtype == a.rtype && r.data == a.data[..w]
  {
    var name := EncodeName(a.name.labels, a.name.ending);
    AtParts(p, offset, name, FixedPart(a) + a.data[..w]);
    AtParts(p, offset + |name|, FixedPart(a), a.data[..w]);
    NamesAreSkipped(p, offset, a.name.labels, a.name.ending);
    FixedPartIsRead(p, offset + |name|, a);
  }

  // A message up to w bytes into the data of its last answer.
  function CutInside(m: Message, w: nat): Packet
    requires m.Countable() && m.answers != [] && w <= |m.answers[|m.answers| - 1].data|
  {
    var n := |m.answers| - 1;
    Headed(m, EncodeAnswers(m.answers[..n]) + CutAnswer(m.answers[n], w))
  }

  /** Any message without a sinkhole cut off inside the data of its last answer, where what is left of it looks
      like a zero address: the panel reads that address, the installer reads nothing. */
  lemma CutInsideZero(m: Message, w: nat)
    requires m.Countable() && m.answers != [] && !HasZero(AddressesOf(m.answers[..|m.answers| - 1]))
    requires var a := m.answers[|m.answers| - 1];
             w < |a.data| && IsAddress(a.rtype, a.data[..w]) && Zero(a.data[..w])
    ensures var p := CutInside(m, w);
            !Sinkholed(Some(p)) && HasZero(Parse(p).addresses) && !Agree(p)
  {
    var n := |m.answers| - 1;
    var rest := EncodeAnswers(m.answers[..n]) + CutAnswer(m.answers[n], w);
    var p, first := CutInside(m, w), HEADER + |EncodeQuestions(m.questions)|;
    HeadedParts(p, m, rest);
    HeadedReaches(p, m, rest);
    ZeroInside(p, first, m.answers[..n], m.answers[n], w, n, 1);
  }

  lemma ZeroInside(p: Packet, first: nat, answers: seq<Answer>, a: Answer, w: nat, n: nat, k: nat)
    requires Reaches(p, first, n + k) && n == |answers| && k == 1 && !HasZero(AddressesOf(answers))
    requires w < |a.data| && IsAddress(a.rtype, a.data[..w]) && Zero(a.data[..w])
    requires At(p, first, EncodeAnswers(answers) + CutAnswer(a, w))
    requires |p| == first + |EncodeAnswers(answers) + CutAnswer(a, w)|
    ensures !Sinkholed(Some(p)) && HasZero(Parse(p).addresses) && !Agree(p)
  {
    var end := first + |EncodeAnswers(answers)|;
    AtParts(p, first, EncodeAnswers(answers), CutAnswer(a, w));
    CutAnswerIsRead(p, end, a, w);
    WalkOn(p, first, answers, n, k, end);
    LastRecordAlone(p, end, k);
    OneZeroMore(p, first, n + k, AddressesOf(answers), LooseAddresses(p, end, k));
  }

  lemma OneZeroMore(p: Packet, first: nat, n: nat, before: seq<Packet>, last: Option<seq<Packet>>)
    requires Reaches(p, first, n) && !StrictZero(p, first, n)
    requires LooseAddresses(p, first, n) == Prepend(before, last) && ReadsZero(last)
    ensures !Sinkholed(Some(p)) && HasZero(Parse(p).addresses) && !Agree(p)
  {
    Verdicts(p, first, n);
    StillReadsZero(before, last);
  }

  lemma StillReadsZero(head: seq<Packet>, tail: Option<seq<Packet>>)
    requires ReadsZero(tail)
    ensures ReadsZero(Prepend(head, tail))
  {
    PrependZero(head, tail);
  }

  lemma LastRecordAlone(p: Packet, offset: nat, k: nat)
    requires StrictRecord(p, offset).None? && LooseRecord(p, offset).Some? && k == 1
    ensures !StrictZero(p, offset, k)
    ensures var r := LooseRecord(p, offset).value;
            LooseAddresses(p, offset, k) == Some(Found(r.rtype, r.data))
            && (HasZero(Found(r.rtype, r.data)) <==> IsAddress(r.rtype, r.data) && Zero(r.data))
  {
    var r := LooseRecord(p, offset).value;
    assert LooseAddresses(p, r.next, k - 1) == Some([]);
    assert Found(r.rtype, r.data) + [] == Found(r.rtype, r.data);
    FoundZero(r.rtype, r.data);
  }

  // --- a reserved label type -----------------------------------------------

  // A record whose name starts with a byte that is neither a length nor a pointer, and as many bytes behind it.
  function ReservedAnswer(filler: Packet, a: Answer): Packet
    requires 0x40 <= |filler| < 0xC0
  {
    [|filler| as Byte] + (filler + ([0] + (FixedPart(a) + a.data)))
  }

  lemma ReservedNameIsRead(p: Packet, offset: nat, filler: Packet, rest: Packet)
    requires 0x40 <= |filler| < 0xC0 && At(p, offset, [|filler| as Byte] + (filler + ([0] + rest)))
    ensures StrictName(p, offset).None? && LooseName(p, offset) == Some(offset + 2 + |filler|)
    ensures At(p, offset + 2 + |filler|, rest)
  {
    var length, n := [|filler| as Byte], offset + 1 + |filler|;
    AtParts(p, offset, length, filler + ([0] + rest));
    AtByte(p, offset, length, 0);
    AtParts(p, offset + 1, filler, [0] + rest);
    AtParts(p, n, [0], rest);
    AtByte(p, n, [0], 0);
    assert LooseName(p, n) == Some(n + 1);
  }

  lemma ReservedAnswerIsRead(p: Packet, offset: nat, filler: Packet, a: Answer)
    requires 0x40 <= |filler| < 0xC0 && At(p, offset, ReservedAnswer(filler, a))
    ensures StrictRecord(p, offset).None? && LooseRecord(p, offset).Some?
    ensures var r := LooseRecord(p, offset).value; r.rtype == a.rtype && r.data == a.data
  {
    var n := offset + 1 + |filler|;
    ReservedNameIsRead(p, offset, filler, FixedPart(a) + a.data);
    AtParts(p, n + 1, FixedPart(a), a.data);
    FixedPartIsRead(p, n + 1, a);
  }

  /** A zero address behind a label of any reserved type is one to the panel, which takes the type for a length. */
  lemma ReservedLabelIsWalkedOver(m: Message, filler: Packet)
    requires m.Countable() && |m.answers| == 1 && 0x40 <= |filler| < 0xC0
    requires IsAddress(m.answers[0].rtype, m.answers[0].data) && Zero(m.answers[0].data)
    ensures var p := Headed(m, ReservedAnswer(filler, m.answers[0]));
            !Sinkholed(Some(p)) && HasZero(Parse(p).addresses) && !Agree(p)
  {
    var rest := ReservedAnswer(filler, m.answers[0]);
    var p := Headed(m, rest);
    var first := HEADER + |EncodeQuestions(m.questions)|;
    HeadedParts(p, m, rest);
    HeadedReaches(p, m, rest);
    ReservedAnswerIsRead(p, first, filler, m.answers[0]);
    LastRecordAlone(p, first, |m.answers|);
    Verdicts(p, first, |m.answers|);
  }

  // --- replies the installer could receive ---------------------------------

  // The question the installer asks, the name it asks for, and the transaction it accepts a reply of.
  const PROBE_ID: U16 := 0x1234
  const DOUBLECLICK: Label := [100, 111, 117, 98, 108, 101, 99, 108, 105, 99, 107]
  const NET: Label := [110, 101, 116]

  function Probe(): Question { Question(Name([DOUBLECLICK, NET], Root), A_RECORD, 1) }

  // An answer to it that names the question's own name by a pointer.
  function AnswerOf(data: Data): Answer { Answer(Name([], Pointer(HEADER)), A_RECORD, 1, 0, 60, data) }

  const SINKHOLE := AnswerOf([0, 0, 0, 0])
  const SIX_BYTES := AnswerOf([0, 0, 0, 0, 1, 1])

  function Reply(answers: seq<Answer>): (m: Message)
    ensures m.Countable() <==> |answers| < 0x1_0000
  {
    Message(PROBE_ID, 0x8180, [Probe()], answers, 0, 0, [])
  }

  // What the installer hands on to its test: more than a header, with the transaction it asked in.
  predicate Receivable(p: Packet) { |p| > HEADER && p[0] == 0x12 && p[1] == 0x34 }

  lemma ProbeRepliesArrive(answers: seq<Answer>, rest: Packet)
    requires Reply(answers).Countable()
    ensures Receivable(Headed(Reply(answers), rest))
  {
    var m := Reply(answers);
    var p := Headed(m, rest);
    assert Two(m.id) == [0x12, 0x34];
    assert Header(m)[0] == 0x12 && Header(m)[1] == 0x34;
    assert p[0] == Header(m)[0] && p[1] == Header(m)[1];
    assert EncodeQuestions(m.questions) != [];
  }

  /** Replies to the installer's own probe that are read apart: two sinkhole answers with the second one
      missing, and one six-byte answer cut to four. */
  lemma CutResponsesAreReadApart()
    ensures var p := CutBehind(Reply([SINKHOLE, SINKHOLE]), 1);
            Receivable(p) && Sinkholed(Some(p)) && Parse(p).addresses == []
    ensures var p := CutInside(Reply([SIX_BYTES]), 4);
            Receivable(p) && !Sinkholed(Some(p)) && HasZero(Parse(p).addresses)
  {
    SecondAnswerMissing(SINKHOLE);
    assert SIX_BYTES.data[..4] == [0, 0, 0, 0];
    LastAnswerCut(SIX_BYTES);
  }

  lemma SecondAnswerMissing(a: Answer)
    requires IsAddress(a.rtype, a.data) && Zero(a.data)
    ensures var m := Reply([a, a]);
            var p := CutBehind(m, 1);
            Receivable(p) && p <= Encode(m) && Sinkholed(Some(p)) && Parse(p).addresses == []
  {
    var m := Reply([a, a]);
    assert m.answers[..1] == [a] && [a][1..] == [];
    assert AddressesOf([a]) == Found(a.rtype, a.data) + [];
    FoundZero(a.rtype, a.data);
    HasZeroJoin(Found(a.rtype, a.data), []);
    CutAfterZero(m, 1);
    ProbeRepliesArrive(m.answers, EncodeAnswers(m.answers[..1]));
  }

  lemma LastAnswerCut(a: Answer)
    requires |a.data| > 4 && IsAddress(a.rtype, a.data[..4]) && Zero(a.data[..4])
    ensures var p := CutInside(Reply([a]), 4);
            Receivable(p) && !Sinkholed(Some(p)) && HasZero(Parse(p).addresses)
  {
    var m := Reply([a]);
    assert m.answers[..0] == [] && !HasZero(AddressesOf([]));
    CutInsideZero(m, 4);
    ProbeRepliesArrive(m.answers, EncodeAnswers([]) + CutAnswer(a, 4));
  }
}
