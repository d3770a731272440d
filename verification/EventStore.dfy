/** The append-only JSON Lines file behind the event log: what is written, what is
    read back, and what an append does. */
module EventStore {
  import opened Options
  import opened JsonText
  import opened Decimal
  import opened EventChain

  /** The uninterpreted parts: the hash, its 64-hex-digit shape and `Date.parse`. */
  datatype Checks = Checks(hash: string -> string, isHash: string -> bool, isTime: string -> bool)

  // ----- one line per event

  function Line(e: Event): string { Print(EventJson(e)) }

  function FileText(events: seq<Event>): string {
    if events == [] then "" else Line(events[0]) + ("\n" + FileText(events[1..]))
  }

  /** A natural number in its canonical numeral. */
  function DecodeNat(j: Json): Option<nat> {
    match j
    case Num(numeral) =>
      if Decimal.AllDigits(numeral) && Digits(ValueOf(numeral)) == numeral then Some(ValueOf(numeral)) else None
    case _ => None
  }

  function DecodeProvenance(j: Json): Option<Provenance> {
    if j.Obj? && Keys(j.members) == PROVENANCE_KEYS then
      var m := j.members;
      assert |Keys(m)| == 4;
      if m[0].value.Str? && m[1].value.Str? && m[2].value.Str? && m[3].value.Str?
      then Some(Provenance(m[0].value.text, m[1].value.text, m[2].value.text, m[3].value.text))
      else None
    else None
  }

  /** The schema check on one decoded line. */
  function DecodeEvent(k: Checks, j: Json): Option<Event>
    requires Normal(j)
  {
    if j.Obj? && Keys(j.members) == EVENT_KEYS then
      var m := j.members;
      assert |Keys(m)| == 9 && Normal(m[3].value);
      var provenance, version, sequence := DecodeProvenance(m[5].value), DecodeNat(m[6].value), DecodeNat(m[7].value);
      if && m[0].value.Str? && k.isHash(m[0].value.text)
         && m[1].value.Str?
         && m[2].value.Str? && k.isTime(m[2].value.text)
         && m[3].value.Obj?
         && (m[4].value.Null? || (m[4].value.Str? && k.isHash(m[4].value.text)))
         && provenance.Some?
         && version == Some(1) && sequence.Some?
         && m[8].value.Str?
      then
        Some(Event(1, sequence.value, m[8].value.text, m[1].value.text, m[2].value.text, m[3].value.members,
                   provenance.value,
                   if m[4].value.Null? then None else Some(m[4].value.text), m[0].value.text))
      else None
    else None
  }

  function ParseLine(k: Checks, line: string): Option<Event> {
    match Parse(line)
    case Malformed => None
    case Parsed(j, _) => ParsedValueNormal(line); DecodeEvent(k, j)
  }

  /** The event's line passes the schema check. */
  predicate Readable(k: Checks, e: Event) {
    && e.schemaVersion == 1 && k.isTime(e.occurredAt) && k.isHash(e.eventHash)
    && (e.previousEventHash.None? || k.isHash(e.previousEventHash.value))
  }

  lemma {:induction false} DecodesNat(n: nat)
    ensures DecodeNat(Num(Digits(n))) == Some(n)
  {
    ValueOfDigits(n);
  }

  lemma DecodesProvenance(p: Provenance)
    ensures DecodeProvenance(ProvenanceJson(p)) == Some(p)
  {
    assert Keys(ProvenanceJson(p).members) == PROVENANCE_KEYS;
  }

  lemma DecodesEvent(k: Checks, e: Event)
    requires Normal(EventJson(e)) && Keys(EventJson(e).members) == EVENT_KEYS
    ensures DecodeEvent(k, EventJson(e)) == if Readable(k, e) then Some(e) else None
  {
    DecodesNat(e.schemaVersion);
    DecodesNat(e.sequence);
    DecodesProvenance(e.provenance);
    hide Digits, ProvenanceJson, DecodeNat, DecodeProvenance, Normal;
    EventMembers(e);
    DecodesNat(e.schemaVersion);
  }

  lemma EventMembers(e: Event)
    ensures var m := EventJson(e).members;
      && |m| == 9 && m[0].value == Str(e.eventHash) && m[1].value == Str(e.eventType) && m[2].value == Str(e.occurredAt)
      && m[3].value == Obj(e.payload) && m[4].value == HashJson(e.previousEventHash)
      && m[5].value == ProvenanceJson(e.provenance)
      && m[6].value == Num(Digits(e.schemaVersion)) && m[7].value == Num(Digits(e.sequence))
      && m[8].value == Str(e.sessionId)
  {
    hide Digits, ProvenanceJson, HashJson;
  }

  /** Reading a written event gives the event back, exactly when it passes the schema
      check. */
  lemma LineReadsBack(k: Checks, e: Event)
    ensures ParseLine(k, Line(e)) == if Readable(k, e) then Some(e) else None
    ensures ParseLine(k, Line(e)).Some? <==>
            && e.schemaVersion == 1 && k.isTime(e.occurredAt) && k.isHash(e.eventHash)
            && (e.previousEventHash.Some? ==> k.isHash(e.previousEventHash.value))
  {
    EventJsonNormal(e);
    RoundTrip(EventJson(e));
    DecodesEvent(k, e);
  }

  // ----- splitting the file

  /** `text.split("\n")`. */
  function Split(text: string): (lines: seq<string>)
    ensures lines != []
  {
    if text == "" then [""]
    else
      var rest := Split(text[1..]);
      if text[0] == '\n' then [""] + rest else [[text[0]] + rest[0]] + rest[1..]
  }

  function NonEmpty(lines: seq<string>): seq<string> {
    if lines == [] then [] else (if lines[0] == "" then [] else [lines[0]]) + NonEmpty(lines[1..])
  }

  function ParseLines(k: Checks, lines: seq<string>): Option<seq<Event>> {
    if lines == [] then Some([])
    else
      match ParseLine(k, lines[0])
      case None => None
      case Some(e) =>
        match ParseLines(k, lines[1..])
        case None => None
        case Some(rest) => Some([e] + rest)
  }

  lemma {:induction false} SplitLine(line: string, rest: string)
    requires forall c :: c in line ==> c != '\n'
    ensures Split(line + ("\n" + rest)) == [line] + Split(rest)
  {
    var t := line + ("\n" + rest);
    if line == "" {
      assert t == "\n" + rest && t[1..] == rest;
    } else {
      assert line[0] in line && forall c :: c in line[1..] ==> c in line;
      SplitLine(line[1..], rest);
      assert t[1..] == line[1..] + ("\n" + rest) && t[0] == line[0];
      assert line == [line[0]] + line[1..];
    }
  }

  /** The events of a log file, or None when `readAll` throws. */
  function ReadLog(k: Checks, text: string): Option<seq<Event>> {
    if text == "" then Some([])
    else if text[|text| - 1] != '\n' then None
    else
      match ParseLines(k, NonEmpty(Split(text)))
      case None => None
      case Some(events) => if Accepted(k.hash, events) then Some(events) else None
  }

  predicate AllReadable(k: Checks, events: seq<Event>) {
    forall i :: 0 <= i < |events| ==> Readable(k, events[i])
  }

  function Lines(events: seq<Event>): seq<string> {
    if events == [] then [] else [Line(events[0])] + Lines(events[1..])
  }

  lemma {:induction false} FileLines(events: seq<Event>)
    ensures NonEmpty(Split(FileText(events))) == Lines(events)
  {
    if events == [] {
      assert Split("") == [""] && NonEmpty([""]) == NonEmpty([""][1..]) == [];
    } else {
      var line, rest := Line(events[0]), FileText(events[1..]);
      LineIsLine(events[0]);
      FileLines(events[1..]);
      SplitLine(line, rest);
      NonEmptyLine(line, Split(rest));
    }
  }

  lemma LineIsLine(e: Event)
    ensures Line(e) != "" && forall c :: c in Line(e) ==> c != '\n'
  {
    EventJsonNormal(e);
    PrintHasNoControl(EventJson(e));
  }

  lemma {:induction false} LinesParse(k: Checks, events: seq<Event>)
    ensures ParseLines(k, Lines(events)) == if AllReadable(k, events) then Some(events) else None
  {
    hide ParseLine, Line, Readable;
    if events != [] {
      LineReadsBack(k, events[0]);
      LinesParse(k, events[1..]);
      assert Lines(events)[1..] == Lines(events[1..]);
      assert events == [events[0]] + events[1..];
      assert AllReadable(k, events) <==> Readable(k, events[0]) && AllReadable(k, events[1..]);
    }
  }

  lemma {:induction false} FileEndsLine(events: seq<Event>)
    ensures events == [] <==> FileText(events) == ""
    ensures events != [] ==> FileText(events)[|FileText(events)| - 1] == '\n'
  {
    if events != [] { FileEndsLine(events[1..]); }
  }

  lemma NonEmptyLine(line: string, rest: seq<string>)
    requires line != ""
    ensures NonEmpty([line] + rest) == [line] + NonEmpty(rest)
  {
    assert ([line] + rest)[1..] == rest;
  }

  /** The file of any accepted log reads back as that log when every line passes the
      schema check, and is rejected otherwise. */
  lemma FileReadsBack(k: Checks, events: seq<Event>)
    requires Accepted(k.hash, events)
    ensures ReadLog(k, FileText(events)) == if AllReadable(k, events) then Some(events) else None
  {
    FileEndsLine(events);
    FileLines(events);
    LinesParse(k, events);
  }

  lemma {:induction false} FileTextAppend(events: seq<Event>, e: Event)
    ensures FileText(events + [e]) == FileText(events) + (Line(e) + "\n")
  {
    if events == [] {
      assert [e][1..] == [] && FileText([e]) == Line(e) + ("\n" + "");
      assert "\n" + "" == "\n";
    } else {
      FileTextAppend(events[1..], e);
      assert (events + [e])[1..] == events[1..] + [e];
      var line, rest, last := Line(events[0]), FileText(events[1..]), Line(e) + "\n";
      Regroup("\n", rest, last);
      Regroup(line, "\n" + rest, last);
    }
  }

  // ----- the store

  datatype Draft = Draft(sessionId: string, eventType: string, occurredAt: string, payload: Payload,
                         provenance: Option<Provenance>)

  const LOCAL_TEST_PROVENANCE :=
    Provenance("local-test", "mock", "LOCAL TEST EVIDENCE - NOT DAYTONA OR RECORDED LIVE", "local-process")

  function Unsigned(events: seq<Event>, input: Draft): Event {
    Event(1, |events| + 1, input.sessionId, input.eventType, input.occurredAt, input.payload,
          if input.provenance.Some? then input.provenance.value else LOCAL_TEST_PROVENANCE,
          if events == [] then None else Some(events[|events| - 1].eventHash), "")
  }

  /** The event an append would write after the log `events`. */
  function Stamped(hash: string -> string, events: seq<Event>, input: Draft): Event {
    var unsigned := Unsigned(events, input);
    unsigned.(eventHash := Digest(hash, unsigned))
  }

  /** It has the fields of the input and the next number, is marked as local test evidence
      unless the input says otherwise, and links to the event before. */
  lemma StampedExactly(hash: string -> string, events: seq<Event>, input: Draft)
    ensures var e := Stamped(hash, events, input);
      && e.schemaVersion == 1 && e.sequence == |events| + 1 && e.eventHash == hash(UnsignedText(e))
      && e.sessionId == input.sessionId && e.eventType == input.eventType && e.occurredAt == input.occurredAt
      && e.payload == input.payload
      && (input.provenance.Some? ==> e.provenance == input.provenance.value)
      && (input.provenance.None? ==>
            && e.provenance.mode == "mock" && e.provenance.kind == "local-test"
            && e.provenance.provider == "local-process"
            && e.provenance.notice == "LOCAL TEST EVIDENCE - NOT DAYTONA OR RECORDED LIVE")
      && e.previousEventHash == (if |events| == 0 then None else Some(events[|events| - 1].eventHash))
  {
    var unsigned := Unsigned(events, input);
    assert UnsignedMembers(unsigned) == UnsignedMembers(Stamped(hash, events, input)) by {
      hide Digits, ProvenanceJson, HashJson;
    }
    hide UnsignedMembers;
  }

  /** The append goes through: the log can be read back, and stays accepted. */
  predicate Appendable(k: Checks, log: seq<Event>, input: Draft) {
    AllReadable(k, log) && Accepted(k.hash, log + [Stamped(k.hash, log, input)])
  }

  function AfterAppend(k: Checks, log: seq<Event>, input: Draft): seq<Event> {
    if Appendable(k, log, input) then log + [Stamped(k.hash, log, input)] else log
  }

  function AfterAppends(k: Checks, log: seq<Event>, inputs: seq<Draft>): seq<Event> {
    if inputs == [] then log else AfterAppend(k, AfterAppends(k, log, inputs[..|inputs| - 1]), inputs[|inputs| - 1])
  }

  /** Appends are served one after the other, and a refused one changes nothing. */
  lemma AppendsExtend(k: Checks, log: seq<Event>, inputs: seq<Draft>, input: Draft)
    ensures AfterAppends(k, log, []) == log
    ensures var before := AfterAppends(k, log, inputs);
      AfterAppends(k, log, inputs + [input]) ==
        if Appendable(k, before, input) then before + [Stamped(k.hash, before, input)] else before
  {
    hide Stamped, Appendable;
    assert (inputs + [input])[..|inputs|] == inputs;
  }

  /** Events already parsed, followed by the rest of the lines. */
  function Followed(events: seq<Event>, rest: Option<seq<Event>>): Option<seq<Event>> {
    match rest
    case None => None
    case Some(more) => Some(events + more)
  }

  lemma NextLine(k: Checks, lines: seq<string>, i: nat, events: seq<Event>)
    requires i < |lines|
    ensures Followed(events, ParseLines(k, lines[i..])) ==
            match ParseLine(k, lines[i])
            case None => None
            case Some(e) => Followed(events + [e], ParseLines(k, lines[i + 1..]))
  {
    assert lines[i..][0] == lines[i] && lines[i..][1..] == lines[i + 1..];
    var rest := ParseLines(k, lines[i + 1..]);
    if ParseLine(k, lines[i]).Some? && rest.Some? {
      var e := ParseLine(k, lines[i]).value;
      assert events + ([e] + rest.value) == events + [e] + rest.value;
    }
  }

  /** `lines.map(parseJsonLine)`, which stops at the first line that does not parse. */
  method ParseAll(k: Checks, lines: seq<string>) returns (r: Option<seq<Event>>)
    ensures r == ParseLines(k, lines)
  {
    var events: seq<Event> := [];
    ghost var all := ParseLines(k, lines);
    assert lines[0..] == lines && (all.Some? ==> [] + all.value == all.value);
    for i := 0 to |lines|
      invariant ParseLines(k, lines) == Followed(events, ParseLines(k, lines[i..]))
    {
      NextLine(k, lines, i, events);
      var event := ParseLine(k, lines[i]);
      if event.None? { return None; }
      events := events + [event.value];
    }
    assert lines[|lines|..] == [] && events + [] == events;
    r := Some(events);
  }

  /** The log file of one session. */
  class JsonlEventStore {
    const checks: Checks
    var text: string
    ghost var log: seq<Event>

    /** The file holds exactly the lines of an accepted log. */
    ghost predicate Valid()
      reads this
    {
      && text == FileText(log)
      && Accepted(checks.hash, log)
      && (forall s {:trigger checks.hash(s)} :: checks.isHash(checks.hash(s)))
    }

    constructor (checks: Checks)
      requires forall s {:trigger checks.hash(s)} :: checks.isHash(checks.hash(s))
      ensures Valid() && log == [] && this.checks == checks
    {
      this.checks := checks;
      text := "";
      log := [];
    }

    /** Everything that was appended is read back, and nothing else; it fails exactly
        when some line does not pass the schema check. */
    method ReadAll() returns (r: Option<seq<Event>>)
      requires Valid()
      ensures r == if AllReadable(checks, log) then Some(log) else None
    {
      FileReadsBack(checks, log);
      if text == "" { return Some([]); }
      if text[|text| - 1] != '\n' { return None; }
      var parsed := ParseAll(checks, NonEmpty(Split(text)));
      if parsed.None? { return None; }
      var events := parsed.value;
      var ok := VerifyEventChain(checks.hash, events);
      if !ok { return None; }
      r := Some(events);
    }

    /** One queued append. A rejected append leaves the file as it was and the store
        ready for the next one; an accepted append adds exactly the stamped event. */
    method Append(input: Draft) returns (r: Option<Event>)
      requires Valid()
      modifies this
      ensures Valid()
      ensures log == AfterAppend(checks, old(log), input)
      ensures r.Some? <==> Appendable(checks, old(log), input)
      ensures r.Some? ==>
              r.value == Stamped(checks.hash, old(log), input) && log == old(log) + [r.value]
                && text == old(text) + (Line(r.value) + "\n")
      ensures r.None? ==> log == old(log) && text == old(text)
      ensures r.Some? ==> (AllReadable(checks, log) <==> checks.isTime(input.occurredAt))
    {
      var current := ReadAll();
      if current.None? { return None; }
      var events := current.value;
      if events != [] && events[|events| - 1].sessionId != input.sessionId {
        OtherSessionRejected(checks.hash, events, Stamped(checks.hash, events, input));
        return None;
      }
      var unsigned := Unsigned(events, input);
      var event := unsigned.(eventHash := Digest(checks.hash, unsigned));
      var ok := VerifyEventChain(checks.hash, events + [event]);
      if !ok { return None; }
      FileTextAppend(log, event);
      AppendedReadable(checks, log, event);
      text := text + (Line(event) + "\n");
      log := log + [event];
      r := Some(event);
    }
  }

  lemma OtherSessionRejected(hash: string -> string, events: seq<Event>, e: Event)
    requires Accepted(hash, events) && events != [] && events[|events| - 1].sessionId != e.sessionId
    ensures !Accepted(hash, events + [e])
  {
    AcceptedIsSound(hash, events);
    VerifyExtend(hash, events, e);
  }

  lemma AppendedReadable(k: Checks, events: seq<Event>, e: Event)
    requires Accepted(k.hash, events) && AllReadable(k, events) && Accepted(k.hash, events + [e])
    requires forall s {:trigger k.hash(s)} :: k.isHash(k.hash(s))
    ensures AllReadable(k, events + [e]) <==> k.isTime(e.occurredAt)
  {
    VerifyExtend(k.hash, events, e);
    AcceptedIsSound(k.hash, events);
    var all := events + [e];
    assert forall i :: 0 <= i < |events| ==> all[i] == events[i];
    assert all[|events|] == e;
  }

  /** Once an event is stored whose own date does not parse, the log is unreadable and stays
      as it is: every later append is refused. */
  lemma {:induction false} UndatedEventShutsTheLog(k: Checks, log: seq<Event>, input: Draft, later: seq<Draft>)
    requires Appendable(k, log, input) && !k.isTime(input.occurredAt)
    ensures var t := AfterAppend(k, log, input);
      && !AllReadable(k, t) && AfterAppends(k, t, later) == t
      && (forall i :: 0 <= i < |later| ==> !Appendable(k, AfterAppends(k, t, later[..i]), later[i]))
  {
    hide Accepted, Digest;
    var t := AfterAppend(k, log, input);
    assert !Readable(k, t[|log|]);
    forall i | 0 <= i <= |later| ensures AfterAppends(k, t, later[..i]) == t { UnreadableStays(k, t, later[..i]); }
    assert later[..|later|] == later;
  }

  lemma {:induction false} UnreadableStays(k: Checks, log: seq<Event>, inputs: seq<Draft>)
    requires !AllReadable(k, log)
    ensures AfterAppends(k, log, inputs) == log
  {
    hide Accepted, Stamped, AllReadable;
    if inputs != [] { UnreadableStays(k, log, inputs[..|inputs| - 1]); }
  }
}
