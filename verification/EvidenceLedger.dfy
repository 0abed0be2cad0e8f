/** The bounded, authenticated evidence ledger of mythos_runtime/assurance.py.

A ledger file holds a hash chain of events, the hash the chain starts from (the anchor), a count, a head and a seal.
Appending first drops what retention no longer keeps and moves the anchor to the last dropped event, so that what is
left is still a chain.  Times are integers on one scale; the file system's contents are the field `file`, as they are
written there: loading reads them back. */
module EvidenceLedger {
  import opened Common
  import opened HashChain
  import opened JsonValues

  datatype Record<+M> = Record(
    eventId: string, timestamp: int, eventType: string, action: string, resourceId: string, subject: string,
    decision: string, metadata: M)

  // What a caller asks to be recorded, and what an event says.
  type Request = Record<Value>
  type Body = Record<Json>

  type Events = seq<Entry<Body>>

  datatype Payload = Payload(
    version: int, anchor: Json, events: Events, eventCount: int, head: Json, seal: string)

  // What the path holds: nothing, something that is no ledger, or a ledger envelope.
  datatype File = Missing | Unreadable(bytes: nat) | Stored(payload: Payload)

  const SIXTEEN_ZEROS := "0000000000000000"
  const GENESIS := SIXTEEN_ZEROS + SIXTEEN_ZEROS + SIXTEEN_ZEROS + SIXTEEN_ZEROS

  const METADATA_LIMIT := 8192

  datatype Error =
    | FileDisappeared | FileTooLarge | FileUnreadable | BadEnvelope | BadCount | BadSeal | BadChain | BadHead
    | MetadataNotEncodable | MetadataTooLarge | WouldBeTooLarge | NoFile

  // ----- Retention -----

  datatype RetentionPolicy = RetentionPolicy(maxEvents: int, maxAge: int, maxStateBytes: int) {
    predicate InBounds() {
      && 1 <= maxEvents <= 100_000
      && 60 <= maxAge <= 366 * 24 * 3600
      && 1024 <= maxStateBytes <= 64 * 1024 * 1024
    }
  }

  type Retention = r: RetentionPolicy | r.InBounds() witness RetentionPolicy(5000, 7 * 24 * 3600, 8 * 1024 * 1024)

  // Up to 100,000 events, from a minute to 366 days, from one KiB to 64 MiB.
  lemma BoundsAre(p: RetentionPolicy)
    ensures p.InBounds() <==>
            0 < p.maxEvents < 100_001 && 59 < p.maxAge < 31_622_401 && 1023 < p.maxStateBytes < 67_108_865
  {
  }

  predicate Expired(e: Entry<Body>, cutoff: int) {
    e.body.timestamp < cutoff
  }

  // How many leading events are expired.
  function ExpiredPrefix(events: Events, cutoff: int): (k: nat)
    ensures k <= |events|
    ensures forall i :: 0 <= i < k ==> events[i].body.timestamp < cutoff
    ensures k < |events| ==> events[k].body.timestamp >= cutoff
  {
    if events == [] || !Expired(events[0], cutoff) then 0 else 1 + ExpiredPrefix(events[1..], cutoff)
  }

  // How many leading events an append drops: the expired ones, and as many more as make room for one.
  function Dropped(events: Events, cutoff: int, maxEvents: int): (k: nat)
    requires maxEvents >= 1
    ensures ExpiredPrefix(events, cutoff) <= k <= |events|
    ensures |events| - k + 1 <= maxEvents
    ensures k > ExpiredPrefix(events, cutoff) ==> |events| - k + 1 == maxEvents
  {
    var expired := ExpiredPrefix(events, cutoff);
    if |events| - expired >= maxEvents then |events| - maxEvents + 1 else expired
  }

  // The drop is the least one that leaves no leading expired event and room for one more.
  lemma DropIsLeast(events: Events, cutoff: int, maxEvents: int, k: nat)
    requires maxEvents >= 1 && k <= |events|
    ensures k >= Dropped(events, cutoff, maxEvents) <==>
            k >= ExpiredPrefix(events, cutoff) && |events| - k + 1 <= maxEvents
  {
  }

  // ----- Configuration, sealing and acceptance -----

  // `seal` stands for the envelope's HMAC, `size` and `metadataSize` for the lengths of the encoded forms, and `shown`
  // for what Python's `str` makes of a value that is no text.
  datatype Config = Config(
    crypto: Crypto<Body>, seal: (int, Json, Events, int, Json) -> string, size: Payload -> nat,
    metadataSize: Json -> nat, shown: Json -> string, retention: Retention)

  predicate Ascii(s: string) {
    forall i :: 0 <= i < |s| ==> s[i] < 128 as char
  }

  lemma GenesisIsAscii()
    ensures Ascii(GENESIS)
  {
    assert Ascii(SIXTEEN_ZEROS);
  }

  // A digest is printed in hexadecimal digits, and there are some.
  ghost predicate DigestsArePrinted(c: Config) {
    forall b, p :: c.crypto.digest(b, p) != "" && Ascii(c.crypto.digest(b, p))
  }

  // The value a further event names, and the head of a ledger.
  function Tip(anchor: Json, events: Events): Json {
    if events == [] then anchor else Text(events[|events| - 1].hash)
  }

  function Seal(c: Config, anchor: Json, events: Events): Payload {
    var head := Tip(anchor, events);
    Payload(2, anchor, events, |events|, head, c.seal(2, anchor, events, |events|, head))
  }

  function SealOf(c: Config, p: Payload): string {
    c.seal(p.version, p.anchor, p.events, p.eventCount, p.head)
  }

  // `str(payload.get("anchor_hash") or GENESIS)`
  function Start(c: Config, anchor: Json): string {
    if Falsy(anchor) then GENESIS else if anchor.Text? then anchor.text else c.shown(anchor)
  }

  // The head is compared with `hmac.compare_digest`, which refuses texts outside ASCII.
  predicate Accepted(c: Config, p: Payload) {
    && p.version == 2
    && p.eventCount == |p.events|
    && p.seal == SealOf(c, p)
    && Linked(c.crypto, Start(c, p.anchor), p.events)
    && p.head == Text(Head(Start(c, p.anchor), p.events)) && Ascii(p.head.text)
  }

  // ----- Reading the file -----

  function RereadBody(b: Body): Body {
    b.(metadata := Reread(b.metadata))
  }

  function RereadEvent(e: Entry<Body>): Entry<Body> {
    e.(body := RereadBody(e.body), previous := Reread(e.previous))
  }

  function RereadEvents(events: Events): (r: Events)
    ensures |r| == |events| && forall i :: 0 <= i < |r| ==> r[i] == RereadEvent(events[i])
  {
    seq(|events|, i requires 0 <= i < |events| => RereadEvent(events[i]))
  }

  // What json.loads makes of a written payload.
  function RereadPayload(p: Payload): Payload {
    p.(anchor := Reread(p.anchor), events := RereadEvents(p.events), head := Reread(p.head))
  }

  predicate Settled(p: Payload) {
    RereadPayload(p) == p
  }

  lemma LoadedIsSettled(p: Payload)
    ensures Settled(RereadPayload(p))
  {
    var q := RereadPayload(p);
    RereadTwice(p.anchor);
    RereadTwice(p.head);
    forall i | 0 <= i < |p.events| ensures RereadEvent(q.events[i]) == q.events[i] {
      RereadTwice(p.events[i].body.metadata);
      RereadTwice(p.events[i].previous);
    }
    assert RereadEvents(q.events) == q.events;
  }

  lemma SettledIff(p: Payload)
    ensures Settled(p) <==>
            Reread(p.anchor) == p.anchor && Reread(p.head) == p.head &&
            forall i :: 0 <= i < |p.events| ==> RereadEvent(p.events[i]) == p.events[i]
  {
    assert RereadEvents(p.events) == p.events <==>
           forall i :: 0 <= i < |p.events| ==> RereadEvents(p.events)[i] == p.events[i];
  }

  // ----- Append as a function -----

  // The anchor and the events an append starts from.
  function KeptAnchor(c: Config, p: Payload, now: int): Json {
    Tip(p.anchor, p.events[..Dropped(p.events, now - c.retention.maxAge, c.retention.maxEvents)])
  }

  function KeptEvents(c: Config, p: Payload, now: int): (kept: Events)
    ensures |kept| < c.retention.maxEvents
  {
    p.events[Dropped(p.events, now - c.retention.maxAge, c.retention.maxEvents)..]
  }

  // The event an append adds to what it keeps.
  function NewEvent(c: Config, anchor: Json, kept: Events, body: Body): Entry<Body> {
    Sealed(c.crypto, body, Tip(anchor, kept))
  }

  function Extended(c: Config, anchor: Json, kept: Events, body: Body): (p: Payload)
    ensures |p.events| == |kept| + 1 && p.events[|kept|] == NewEvent(c, anchor, kept, body)
  {
    Seal(c, anchor, kept + [NewEvent(c, anchor, kept, body)])
  }

  // What is left of a payload, with one event more.
  function Appended(c: Config, p: Payload, body: Body): (p': Payload)
    ensures 1 <= |p'.events| <= c.retention.maxEvents
  {
    Extended(c, KeptAnchor(c, p, body.timestamp), KeptEvents(c, p, body.timestamp), body)
  }

  function AppendedEvent(c: Config, p: Payload, body: Body): Entry<Body> {
    NewEvent(c, KeptAnchor(c, p, body.timestamp), KeptEvents(c, p, body.timestamp), body)
  }

  datatype State = State(file: File, observed: bool)

  function Load(c: Config, s: State): (r: Result<Payload, Error>)
    ensures s.file.Stored? && r.Ok? ==> r.value == RereadPayload(s.file.payload) && Accepted(c, r.value)
  {
    match s.file
    case Missing => if s.observed then Err(FileDisappeared) else Ok(Seal(c, Text(GENESIS), []))
    case Unreadable(bytes) => Err(if bytes > c.retention.maxStateBytes then FileTooLarge else FileUnreadable)
    case Stored(p) =>
      if c.size(p) > c.retention.maxStateBytes then Err(FileTooLarge)
      else
        var loaded := RereadPayload(p);
        var problem := Problem(c, loaded);
        if problem.Some? then Err(problem.value) else Ok(loaded)
  }

  // The first check of _verify_payload that fails.
  function Problem(c: Config, p: Payload): (e: Option<Error>)
    ensures e.None? <==> Accepted(c, p)
  {
    if p.version != 2 then Some(BadEnvelope)
    else if p.eventCount != |p.events| then Some(BadCount)
    else if p.seal != SealOf(c, p) then Some(BadSeal)
    else if !Linked(c.crypto, Start(c, p.anchor), p.events) then Some(BadChain)
    else if p.head != Text(Head(Start(c, p.anchor), p.events)) || !Ascii(p.head.text) then Some(BadHead)
    else None
  }

  // What the self-check and the size limit say to the payload an append has built.
  function Objection(c: Config, p: Payload): (e: Option<Error>)
    ensures e.None? <==> Accepted(c, p) && c.size(p) <= c.retention.maxStateBytes
  {
    var problem := Problem(c, p);
    if problem.Some? then problem
    else if c.size(p) > c.retention.maxStateBytes then Some(WouldBeTooLarge)
    else None
  }

  function BodyOf(r: Request, metadata: Json): Body {
    Record(r.eventId, r.timestamp, r.eventType, r.action, r.resourceId, r.subject, r.decision, metadata)
  }

  // The payload an append builds from what it has loaded.
  function Built(c: Config, loaded: Payload, r: Request): Payload
    requires Written(r.metadata).Some?
  {
    Appended(c, loaded, BodyOf(r, Written(r.metadata).value))
  }

  // One append: the state after it, and the event it returns or the error it raises.
  function Step(c: Config, s: State, r: Request): (State, Result<Entry<Body>, Error>) {
    var seen := State(s.file, s.observed || !s.file.Missing?);
    var loaded := Load(c, s);
    var metadata := Written(r.metadata);
    if loaded.Err? then (seen, Err(loaded.error))
    else if metadata.None? then (seen, Err(MetadataNotEncodable))
    else if c.metadataSize(metadata.value) > METADATA_LIMIT then (seen, Err(MetadataTooLarge))
    else
      var p := Built(c, loaded.value, r);
      var objection := Objection(c, p);
      if objection.Some? then (seen, Err(objection.value))
      else (State(Stored(p), true), Ok(AppendedEvent(c, loaded.value, BodyOf(r, metadata.value))))
  }

  // When an append succeeds and what it has written then.
  lemma StepOutcome(c: Config, s: State, r: Request)
    ensures
      var (s', outcome) := Step(c, s, r);
      && (outcome.Ok? <==>
          Load(c, s).Ok? && Written(r.metadata).Some? && c.metadataSize(Written(r.metadata).value) <= METADATA_LIMIT &&
          Objection(c, Built(c, Load(c, s).value, r)).None?)
      && (outcome.Err? ==> s'.file == s.file && s'.observed == (s.observed || !s.file.Missing?))
      && (outcome.Ok? ==>
          s' == State(Stored(Built(c, Load(c, s).value, r)), true) &&
          outcome.value == AppendedEvent(c, Load(c, s).value, BodyOf(r, Written(r.metadata).value)))
  {
  }

  // ----- The self-check after an append -----

  // The anchor a further event can name: a text that is not empty.
  predicate CanBeNamed(anchor: Json) {
    anchor.Text? && anchor.text != ""
  }

  lemma AnchorMoves(c: Config, anchor: Json, events: Events, k: nat)
    requires DigestsArePrinted(c) && Linked(c.crypto, Start(c, anchor), events) && k <= |events|
    ensures k > 0 ==> CanBeNamed(Tip(anchor, events[..k]))
    ensures Linked(c.crypto, Start(c, Tip(anchor, events[..k])), events[k..])
  {
    LinkedSplits(c.crypto, Start(c, anchor), events, k);
    if k > 0 {
      assert LinkAt(c.crypto, Start(c, anchor), events, k - 1);
    } else {
      assert events[..k] == [];
    }
  }

  lemma ExtendedIsAccepted(c: Config, anchor: Json, kept: Events, body: Body)
    requires DigestsArePrinted(c) && Linked(c.crypto, Start(c, anchor), kept) && (CanBeNamed(anchor) || kept != [])
    ensures Accepted(c, Extended(c, anchor, kept, body))
  {
    assert Tip(anchor, kept) == Text(Head(Start(c, anchor), kept));
    AppendKeepsLinked(c.crypto, Start(c, anchor), kept, body);
  }

  // A new event that names an anchor that is no text, or the empty one, is never accepted.
  lemma OrphanIsRejected(c: Config, anchor: Json, body: Body)
    requires !CanBeNamed(anchor)
    ensures !Accepted(c, Extended(c, anchor, [], body))
  {
    var events := Extended(c, anchor, [], body).events;
    assert events[0].previous == anchor != Text(Start(c, anchor));
    assert !LinkAt(c.crypto, Start(c, anchor), events, 0);
  }

  // The payload built by an append passes its own verification exactly when it started from events or from an anchor
  // that is a text and not empty.  The other anchors are read as genesis or as what `str` makes of them, and named as
  // they are.
  lemma AppendIsAcceptedIff(c: Config, p: Payload, body: Body)
    requires DigestsArePrinted(c) && Accepted(c, p)
    ensures Accepted(c, Appended(c, p, body)) <==> p.events != [] || CanBeNamed(p.anchor)
  {
    var k := Dropped(p.events, body.timestamp - c.retention.maxAge, c.retention.maxEvents);
    var anchor, kept := KeptAnchor(c, p, body.timestamp), KeptEvents(c, p, body.timestamp);
    AnchorMoves(c, p.anchor, p.events, k);
    if p.events == [] && !CanBeNamed(p.anchor) {
      assert kept == [] && anchor == p.anchor;
      OrphanIsRejected(c, anchor, body);
    } else {
      ExtendedIsAccepted(c, anchor, kept, body);
    }
  }

  // ----- Runs -----

  // A run of appends from no file, with the events it has ever written.
  function Run(c: Config, requests: seq<Request>): (State, Events) {
    if requests == [] then (State(Missing, false), [])
    else
      var (s, history) := Run(c, requests[..|requests| - 1]);
      var (s', outcome) := Step(c, s, requests[|requests| - 1]);
      (s', if outcome.Ok? then history + [outcome.value] else history)
  }

  // The stored events are the history from `dropped` on, anchored at the last dropped event or at genesis.
  ghost predicate IsSuffixOf(p: Payload, history: Events, dropped: nat) {
    dropped <= |history| && p.events == history[dropped..] && p.anchor == Text(Head(GENESIS, history[..dropped]))
  }

  ghost predicate Consistent(c: Config, s: State, history: Events) {
    && Linked(c.crypto, GENESIS, history)
    && match s.file {
         case Missing => !s.observed && history == []
         case Unreadable(_) => false
         case Stored(p) =>
           && s.observed && Settled(p) && Accepted(c, p) && c.size(p) <= c.retention.maxStateBytes
           && 1 <= |p.events| <= c.retention.maxEvents
           && exists dropped :: IsSuffixOf(p, history, dropped)
       }
  }

  // Metadata that is written and read back as itself, or not written at all.
  predicate Harmless(r: Request) {
    Written(r.metadata).Some? ==> Survives(r.metadata)
  }

  lemma StepKeepsConsistent(c: Config, s: State, history: Events, r: Request)
    requires DigestsArePrinted(c) && Consistent(c, s, history) && Harmless(r)
    ensures
      var (s', outcome) := Step(c, s, r);
      Consistent(c, s', if outcome.Ok? then history + [outcome.value] else history)
  {
    StepOutcome(c, s, r);
    var (s', outcome) := Step(c, s, r);
    if outcome.Ok? {
      var dropped := LoadedIsSuffix(c, s, history);
      var body := BodyOf(r, Written(r.metadata).value);
      BuiltIsSettledIff(c, Load(c, s).value, body);
      WrittenIsConsistent(c, Load(c, s).value, history, dropped, body);
    }
  }

  lemma WrittenIsConsistent(c: Config, p: Payload, history: Events, dropped: nat, body: Body)
    requires Linked(c.crypto, GENESIS, history) && IsSuffixOf(p, history, dropped)
    requires Objection(c, Appended(c, p, body)).None? && Settled(Appended(c, p, body))
    ensures Consistent(c, State(Stored(Appended(c, p, body)), true), history + [AppendedEvent(c, p, body)])
  {
    var d := SuffixGrows(c, p, history, dropped, body);
  }

  lemma LoadedIsSuffix(c: Config, s: State, history: Events) returns (dropped: nat)
    requires Consistent(c, s, history)
    ensures Load(c, s).Ok? && IsSuffixOf(Load(c, s).value, history, dropped) && Accepted(c, Load(c, s).value)
    ensures Settled(Load(c, s).value)
  {
    if s.file.Missing? {
      dropped := 0;
      assert Linked(c.crypto, GENESIS, []);
      EmptyLedgerIsAccepted(c);
    } else {
      dropped :| IsSuffixOf(s.file.payload, history, dropped);
    }
  }

  lemma SuffixGrows(c: Config, p: Payload, history: Events, dropped: nat, body: Body) returns (d: nat)
    requires Linked(c.crypto, GENESIS, history) && IsSuffixOf(p, history, dropped)
    ensures d == dropped + Dropped(p.events, body.timestamp - c.retention.maxAge, c.retention.maxEvents)
    ensures IsSuffixOf(Appended(c, p, body), history + [AppendedEvent(c, p, body)], d)
    ensures Linked(c.crypto, GENESIS, history + [AppendedEvent(c, p, body)])
  {
    var k := Dropped(p.events, body.timestamp - c.retention.maxAge, c.retention.maxEvents);
    d := dropped + k;
    KeptIsSuffix(p, history, dropped, k);
    var anchor, kept := KeptAnchor(c, p, body.timestamp), KeptEvents(c, p, body.timestamp);
    assert kept == history[d..] && anchor == Text(Head(GENESIS, history[..d]));
    ExtendedSuffix(c, anchor, kept, history, d, body);
    assert Appended(c, p, body) == Extended(c, anchor, kept, body);
    assert AppendedEvent(c, p, body) == NewEvent(c, anchor, kept, body);
  }

  lemma KeptIsSuffix(p: Payload, history: Events, dropped: nat, k: nat)
    requires IsSuffixOf(p, history, dropped) && k <= |p.events|
    ensures p.events[k..] == history[dropped + k..]
    ensures Tip(p.anchor, p.events[..k]) == Text(Head(GENESIS, history[..dropped + k]))
  {
    if k > 0 { assert history[..dropped + k][dropped + k - 1] == p.events[k - 1]; }
  }

  lemma ExtendedSuffix(c: Config, anchor: Json, kept: Events, history: Events, d: nat, body: Body)
    requires Linked(c.crypto, GENESIS, history) && d <= |history|
    requires kept == history[d..] && anchor == Text(Head(GENESIS, history[..d]))
    ensures IsSuffixOf(Extended(c, anchor, kept, body), history + [NewEvent(c, anchor, kept, body)], d)
    ensures Linked(c.crypto, GENESIS, history + [NewEvent(c, anchor, kept, body)])
  {
    assert Tip(anchor, kept) == Text(Head(GENESIS, history)) by {
      if kept == [] { assert history[..d] == history; }
    }
    var e := NewEvent(c, anchor, kept, body);
    AppendKeepsLinked(c.crypto, GENESIS, history, body);
    assert (history + [e])[d..] == kept + [e];
    assert (history + [e])[..d] == history[..d];
  }

  // Over every run whose metadata survives, the file is an accepted, bounded ledger of the latest events ever written.
  lemma {:induction false} EveryRunIsConsistent(c: Config, requests: seq<Request>)
    requires DigestsArePrinted(c) && forall i :: 0 <= i < |requests| ==> Harmless(requests[i])
    ensures Consistent(c, Run(c, requests).0, Run(c, requests).1)
  {
    if requests != [] {
      var before := requests[..|requests| - 1];
      EveryRunIsConsistent(c, before);
      StepKeepsConsistent(c, Run(c, before).0, Run(c, before).1, requests[|requests| - 1]);
    }
  }

  // After such a run, an append fails only for metadata that cannot be written or for a size, whatever its metadata.
  lemma {:induction false} AppendSucceedsIff(c: Config, requests: seq<Request>, r: Request)
    requires DigestsArePrinted(c) && forall i :: 0 <= i < |requests| ==> Harmless(requests[i])
    ensures Load(c, Run(c, requests).0).Ok?
    ensures
      var s := Run(c, requests).0;
      Step(c, s, r).1.Ok? <==>
      Written(r.metadata).Some? && c.metadataSize(Written(r.metadata).value) <= 8192 &&
      c.size(Built(c, Load(c, s).value, r)) <= c.retention.maxStateBytes
  {
    var s, history := Run(c, requests).0, Run(c, requests).1;
    EveryRunIsConsistent(c, requests);
    var dropped := LoadedIsSuffix(c, s, history);
    AnchorCanBeNamed(c, Load(c, s).value, history, dropped);
    if Written(r.metadata).Some? {
      AppendIsAcceptedIff(c, Load(c, s).value, BodyOf(r, Written(r.metadata).value));
    }
    StepOutcome(c, s, r);
  }

  lemma AnchorCanBeNamed(c: Config, p: Payload, history: Events, dropped: nat)
    requires DigestsArePrinted(c) && Linked(c.crypto, GENESIS, history) && IsSuffixOf(p, history, dropped)
    ensures CanBeNamed(p.anchor)
  {
    if dropped > 0 { assert LinkAt(c.crypto, GENESIS, history, dropped - 1); }
  }

  // ----- What is recorded -----

  // The event says what was asked to be recorded.
  predicate Says(e: Entry<Body>, r: Request) {
    && e.body.eventId == r.eventId && e.body.timestamp == r.timestamp && e.body.eventType == r.eventType
    && e.body.action == r.action && e.body.resourceId == r.resourceId && e.body.subject == r.subject
    && e.body.decision == r.decision && Written(r.metadata) == Some(e.body.metadata)
  }

  type Outcome = Result<Entry<Body>, Error>

  // What each request of a run was answered.
  function Outcomes(c: Config, requests: seq<Request>): (answers: seq<Outcome>)
    ensures |answers| == |requests|
  {
    if requests == [] then []
    else
      var front, r := requests[..|requests| - 1], requests[|requests| - 1];
      Outcomes(c, front) + [Step(c, Run(c, front).0, r).1]
  }

  // The events among the answers.
  function Values(answers: seq<Outcome>): seq<Entry<Body>> {
    if answers == [] then []
    else
      var last := answers[|answers| - 1];
      Values(answers[..|answers| - 1]) + if last.Ok? then [last.value] else []
  }

  lemma OutcomesFront(c: Config, requests: seq<Request>)
    requires requests != []
    ensures Outcomes(c, requests)[..|requests| - 1] == Outcomes(c, requests[..|requests| - 1])
  {
  }

  lemma OutcomesLast(c: Config, requests: seq<Request>)
    requires requests != []
    ensures Outcomes(c, requests)[|requests| - 1] ==
            Step(c, Run(c, requests[..|requests| - 1]).0, requests[|requests| - 1]).1
  {
  }

  lemma {:induction false} OutcomesPrefix(c: Config, requests: seq<Request>, m: nat)
    requires m <= |requests|
    ensures Outcomes(c, requests)[..m] == Outcomes(c, requests[..m])
    decreases |requests|
  {
    var n := |requests| - 1;
    if m <= n {
      var all, front := Outcomes(c, requests), requests[..n];
      OutcomesFront(c, requests);
      OutcomesPrefix(c, front, m);
      assert front[..m] == requests[..m] && all[..n][..m] == all[..m];
    } else {
      assert requests[..m] == requests;
    }
  }

  // Each request was answered by the step from the state that the requests before it had left.
  lemma OutcomesAre(c: Config, requests: seq<Request>, i: nat)
    requires i < |requests|
    ensures Outcomes(c, requests)[i] == Step(c, Run(c, requests[..i]).0, requests[i]).1
  {
    var upTo := requests[..i + 1];
    OutcomesPrefix(c, requests, i + 1);
    OutcomesLast(c, upTo);
    assert upTo[..i] == requests[..i] && upTo[i] == requests[i];
    assert Outcomes(c, requests)[i] == Outcomes(c, requests)[..i + 1][i];
  }

  lemma {:induction false} RunWritesValues(c: Config, requests: seq<Request>)
    ensures Run(c, requests).1 == Values(Outcomes(c, requests))
  {
    if requests != [] {
      var front := requests[..|requests| - 1];
      RunWritesValues(c, front);
      ValuesOfMore(Outcomes(c, front), Step(c, Run(c, front).0, requests[|requests| - 1]).1);
    }
  }

  lemma ValuesOfMore(answers: seq<Outcome>, last: Outcome)
    ensures Values(answers + [last]) == if last.Ok? then Values(answers) + [last.value] else Values(answers)
  {
    assert (answers + [last])[..|answers|] == answers;
  }

  // `at` lists the answers that are events, in order.
  predicate ListsOk(at: seq<nat>, answers: seq<Outcome>) {
    && (forall k :: 0 <= k < |at| ==> at[k] < |answers| && answers[at[k]].Ok?)
    && (forall j, k :: 0 <= j < k < |at| ==> at[j] < at[k])
    && (forall i :: 0 <= i < |answers| && answers[i].Ok? ==> i in at)
  }

  lemma {:induction false} ValuesAreListed(answers: seq<Outcome>) returns (at: seq<nat>)
    ensures ListsOk(at, answers) && |at| == |Values(answers)|
    ensures forall k :: 0 <= k < |at| ==> Values(answers)[k] == answers[at[k]].value
  {
    if answers == [] {
      at := [];
    } else {
      var n: nat := |answers| - 1;
      var before := ValuesAreListed(answers[..n]);
      at := before + if answers[n].Ok? then [n] else [];
      ListsOneMore(before, answers, at);
    }
  }

  lemma ListsOneMore(before: seq<nat>, answers: seq<Outcome>, at: seq<nat>)
    requires answers != [] && ListsOk(before, answers[..|answers| - 1])
    requires at == before + if answers[|answers| - 1].Ok? then [|answers| - 1] else []
    ensures ListsOk(at, answers)
  {
    var n := |answers| - 1;
    assert forall k :: 0 <= k < |before| ==> answers[..n][before[k]] == answers[before[k]];
    forall i | 0 <= i < |answers| && answers[i].Ok? ensures i in at {
      if i < n {
        assert answers[..n][i] == answers[i];
        var k :| 0 <= k < |before| && before[k] == i;
        assert at[k] == i;
      } else {
        assert at[|before|] == i;
      }
    }
  }

  lemma StepSays(c: Config, s: State, r: Request)
    requires Step(c, s, r).1.Ok?
    ensures Says(Step(c, s, r).1.value, r)
  {
    StepOutcome(c, s, r);
  }

  // The k-th event a run has ever written is the answer to the k-th request of the run that succeeded, and says what that
  // request asked to be recorded.
  lemma {:induction false} EventsSayRequests(c: Config, requests: seq<Request>) returns (at: seq<nat>)
    ensures ListsOk(at, Outcomes(c, requests)) && |Run(c, requests).1| == |at|
    ensures forall k :: 0 <= k < |at| ==> Run(c, requests).1[k] == Outcomes(c, requests)[at[k]].value
    ensures forall k :: 0 <= k < |at| ==> Says(Run(c, requests).1[k], requests[at[k]])
  {
    RunWritesValues(c, requests);
    at := ValuesAreListed(Outcomes(c, requests));
    forall k | 0 <= k < |at| ensures Says(Outcomes(c, requests)[at[k]].value, requests[at[k]]) {
      OutcomesAre(c, requests, at[k]);
      StepSays(c, Run(c, requests[..at[k]]).0, requests[at[k]]);
    }
  }

  // ----- Metadata that does not survive -----

  // An envelope that is read back as another one does not share its seal with it.
  ghost predicate SealSeparates(c: Config) {
    forall p: Payload :: SealOf(c, RereadPayload(p)) == SealOf(c, p) ==> Settled(p)
  }

  lemma BuiltIsSettledIff(c: Config, p: Payload, body: Body)
    requires Settled(p)
    ensures Settled(Appended(c, p, body)) <==> Reread(body.metadata) == body.metadata
  {
    var k := Dropped(p.events, body.timestamp - c.retention.maxAge, c.retention.maxEvents);
    SettledIff(p);
    ExtendedIsSettledIff(c, KeptAnchor(c, p, body.timestamp), p.events[k..], body);
  }

  lemma ExtendedIsSettledIff(c: Config, anchor: Json, kept: Events, body: Body)
    requires Reread(anchor) == anchor && forall i :: 0 <= i < |kept| ==> RereadEvent(kept[i]) == kept[i]
    ensures Settled(Extended(c, anchor, kept, body)) <==> Reread(body.metadata) == body.metadata
  {
    var built, event := Extended(c, anchor, kept, body), NewEvent(c, anchor, kept, body);
    SettledIff(built);
    assert built.events[|kept|] == event && forall i :: 0 <= i < |kept| ==> built.events[i] == kept[i];
    EventIsSettledIff(event);
  }

  lemma EventIsSettledIff(e: Entry<Body>)
    ensures RereadEvent(e) == e <==> Reread(e.body.metadata) == e.body.metadata && Reread(e.previous) == e.previous
  {
  }

  lemma UnsettledIsRejected(c: Config, p: Payload)
    requires SealSeparates(c) && p.version == 2 && p.eventCount == |p.events|
    requires p.seal == SealOf(c, p) && !Settled(p)
    ensures Problem(c, RereadPayload(p)) == Some(BadSeal)
  {
    assert SealOf(c, RereadPayload(p)) == SealOf(c, p) ==> Settled(p);
  }

  lemma WhatLoadsIsSettled(c: Config, s: State)
    requires Load(c, s).Ok?
    ensures Settled(Load(c, s).value)
  {
    if s.file.Missing? { EmptyLedgerIsAccepted(c); } else { LoadedIsSettled(s.file.payload); }
  }

  // After an append has written its payload, the file loads exactly when the metadata survives.
  lemma WrittenLoadsIff(c: Config, s: State, r: Request)
    requires SealSeparates(c) && Step(c, s, r).1.Ok?
    ensures Load(c, Step(c, s, r).0).Ok? <==> Survives(r.metadata)
    ensures !Survives(r.metadata) ==> Load(c, Step(c, s, r).0) == Err(BadSeal)
  {
    StepOutcome(c, s, r);
    WhatLoadsIsSettled(c, s);
    BuiltLoadsIff(c, Load(c, s).value, BodyOf(r, Written(r.metadata).value));
  }

  lemma BuiltLoadsIff(c: Config, p: Payload, body: Body)
    requires SealSeparates(c) && Settled(p) && Objection(c, Appended(c, p, body)).None?
    ensures
      var loaded := Load(c, State(Stored(Appended(c, p, body)), true));
      if Reread(body.metadata) == body.metadata then loaded.Ok? else loaded == Err(BadSeal)
  {
    BuiltIsSettledIff(c, p, body);
    if Reread(body.metadata) != body.metadata { UnsettledIsRejected(c, Appended(c, p, body)); }
  }

  lemma UnloadableStep(c: Config, s: State, r: Request)
    requires s.file.Stored? && Load(c, s).Err?
    ensures Step(c, s, r) == (State(s.file, true), Err(Load(c, s).error))
    ensures Load(c, Step(c, s, r).0) == Load(c, s)
  {
  }

  // The file is there, does not load for this reason, and every append fails for it.
  ghost predicate Refuses(c: Config, s: State, file: File, error: Error) {
    && s.file == file && Load(c, s) == Err(error)
    && forall r :: Step(c, s, r).1 == Err(error)
  }

  lemma UnloadableRefuses(c: Config, s: State)
    requires s.file.Stored? && Load(c, s).Err?
    ensures Refuses(c, s, s.file, Load(c, s).error)
  {
    forall r ensures Step(c, s, r).1 == Err(Load(c, s).error) {
      UnloadableStep(c, s, r);
    }
  }

  // Nothing gets past a file that does not load: whatever is asked, it stays there and every append fails.
  lemma {:induction false} UnloadableStays(c: Config, s: State, requests: seq<Request>)
    requires s.file.Stored? && Load(c, s).Err?
    ensures Refuses(c, Continued(c, s, requests), s.file, Load(c, s).error)
  {
    if requests == [] {
      UnloadableRefuses(c, s);
    } else {
      var before := Continued(c, s, requests[..|requests| - 1]);
      UnloadableStays(c, s, requests[..|requests| - 1]);
      UnloadableStep(c, before, requests[|requests| - 1]);
      UnloadableRefuses(c, Continued(c, s, requests));
    }
  }

  function Continued(c: Config, s: State, requests: seq<Request>): State {
    if requests == [] then s
    else Step(c, Continued(c, s, requests[..|requests| - 1]), requests[|requests| - 1]).0
  }

  // The metadata of every event is read back as it was written.
  ghost predicate AllSurvive(history: Events) {
    forall i :: 0 <= i < |history| ==> Reread(history[i].body.metadata) == history[i].body.metadata
  }

  // The file a run leaves loads exactly when the metadata of every event it has ever written survives.
  lemma {:induction false} RunLoadsIff(c: Config, requests: seq<Request>)
    requires SealSeparates(c)
    ensures Load(c, Run(c, requests).0).Ok? <==> AllSurvive(Run(c, requests).1)
    ensures Run(c, requests).0.file.Stored? || Run(c, requests).0 == State(Missing, false)
  {
    if requests == [] {
      EmptyLedgerIsAccepted(c);
    } else {
      var n := |requests| - 1;
      RunLoadsIff(c, requests[..n]);
      LoadsAfterStepIff(c, Run(c, requests[..n]).0, Run(c, requests[..n]).1, requests[n]);
    }
  }

  lemma EmptyLedgerIsAccepted(c: Config)
    ensures Accepted(c, Seal(c, Text(GENESIS), [])) && Settled(Seal(c, Text(GENESIS), []))
  {
    GenesisIsAscii();
    assert RereadEvents([]) == [];
  }

  lemma AllSurviveGrows(history: Events, e: Entry<Body>)
    ensures AllSurvive(history + [e]) <==> AllSurvive(history) && Reread(e.body.metadata) == e.body.metadata
  {
    var longer := history + [e];
    assert longer[|history|] == e && forall i :: 0 <= i < |history| ==> longer[i] == history[i];
  }

  lemma FailureLoadsAlike(c: Config, s: State, r: Request)
    requires (s.file.Stored? || s == State(Missing, false)) && Step(c, s, r).1.Err?
    ensures Load(c, Step(c, s, r).0) == Load(c, s)
    ensures Step(c, s, r).0.file.Stored? || Step(c, s, r).0 == State(Missing, false)
  {
  }

  lemma LoadsAfterStepIff(c: Config, s: State, history: Events, r: Request)
    requires SealSeparates(c) && (s.file.Stored? || s == State(Missing, false))
    requires Load(c, s).Ok? <==> AllSurvive(history)
    ensures
      var (s', outcome) := Step(c, s, r);
      && (Load(c, s').Ok? <==> AllSurvive(if outcome.Ok? then history + [outcome.value] else history))
      && (s'.file.Stored? || s' == State(Missing, false))
  {
    if Step(c, s, r).1.Ok? {
      StepOutcome(c, s, r);
      WrittenLoadsIff(c, s, r);
      AllSurviveGrows(history, Step(c, s, r).1.value);
    } else {
      FailureLoadsAlike(c, s, r);
    }
  }

  // Such an append: {2: 1, 10: 3} is written, and the ledger refuses everything from then on.
  lemma {:induction false} NumberKeysStopTheLedger(c: Config, s: State, r: Request, requests: seq<Request>)
    requires SealSeparates(c) && Step(c, s, r).1.Ok? && r.metadata == RETRIES
    ensures Refuses(c, Continued(c, Step(c, s, r).0, requests), Step(c, s, r).0.file, BadSeal)
  {
    RetriesDoNotSurvive();
    WrittenLoadsIff(c, s, r);
    StepOutcome(c, s, r);
    UnloadableStays(c, Step(c, s, r).0, requests);
  }

  // An append that fails writes nothing, and one that cannot load fails: a file that has disappeared, cannot be read
  // or is not accepted is never replaced.
  lemma FailureWritesNothing(c: Config, s: State, r: Request)
    ensures Step(c, s, r).1.Err? ==> Step(c, s, r).0.file == s.file
    ensures (s.file.Missing? && s.observed) || s.file.Unreadable? ||
            (s.file.Stored? && !Accepted(c, RereadPayload(s.file.payload))) ==>
              Step(c, s, r).1.Err?
  {
    StepOutcome(c, s, r);
  }

  // ----- What head and count identify -----

  // Unless their events collide, two accepted ledgers of one count and one head hold the same events from the same
  // start; they are the same ledger exactly when they spell the start alike.
  lemma HeadAndCountIdentify(c: Config, p: Payload, q: Payload)
    requires NoCollision(p.events, q.events) && Accepted(c, p) && Accepted(c, q)
    requires p.head == q.head && p.eventCount == q.eventCount
    ensures p.events == q.events && Start(c, p.anchor) == Start(c, q.anchor)
    ensures p == q <==> p.anchor == q.anchor
    ensures p != q ==> !CanBeNamed(p.anchor) || !CanBeNamed(q.anchor)
  {
    HeadDeterminesChain(c.crypto, Start(c, p.anchor), p.events, Start(c, q.anchor), q.events);
  }

  // Every anchor that is passed over by `or` is accepted beside the genesis anchor, and so is every other value whose
  // shown form is the head.
  lemma SpellingsOfAStart(c: Config, anchor: Json) returns (p: Payload, q: Payload)
    requires Ascii(Start(c, anchor)) && Start(c, anchor) != ""
    ensures Accepted(c, p) && Accepted(c, q) && p.head == q.head && p.eventCount == q.eventCount
    ensures p.anchor == anchor && q.anchor == Text(Start(c, anchor))
    ensures p == q <==> CanBeNamed(anchor)
  {
    var head := Text(Start(c, anchor));
    p := Payload(2, anchor, [], 0, head, c.seal(2, anchor, [], 0, head));
    q := Payload(2, head, [], 0, head, c.seal(2, head, [], 0, head));
  }

  // ----- The class -----

  method VerifyPayload(c: Config, p: Payload) returns (problem: Option<Error>)
    ensures problem == Problem(c, p)
  {
    if p.version != 2 {
      return Some(BadEnvelope);
    }
    if p.eventCount != |p.events| {
      return Some(BadCount);
    }
    if p.seal != SealOf(c, p) {
      return Some(BadSeal);
    }
    var linked := Verify(c.crypto, Start(c, p.anchor), p.events);
    if !linked {
      return Some(BadChain);
    }
    if p.head != Text(Head(Start(c, p.anchor), p.events)) || !Ascii(p.head.text) {
      return Some(BadHead);
    }
    return None;
  }

  method ExpiredCount(events: Events, cutoff: int) returns (firstKeep: nat)
    ensures firstKeep == ExpiredPrefix(events, cutoff)
  {
    firstKeep := 0;
    while firstKeep < |events| && Expired(events[firstKeep], cutoff)
      invariant firstKeep <= |events|
      invariant ExpiredPrefix(events, cutoff) == firstKeep + ExpiredPrefix(events[firstKeep..], cutoff)
    {
      assert events[firstKeep..][1..] == events[firstKeep + 1..];
      firstKeep := firstKeep + 1;
    }
  }

  // Dropping the first k events and then m of the rest is dropping k + m.
  lemma CutTwice(anchor: Json, events: Events, k: nat, m: nat)
    requires 0 < m && k + m <= |events|
    ensures events[k..][m..] == events[k + m..]
    ensures Text(events[k..][m - 1].hash) == Tip(anchor, events[..k + m])
  {
  }

  const MIN_KEY_LENGTH := 32

  // The public constructor: a signing key of fewer than 32 bytes is refused.
  method NewLedger(config: Config, file: File, keyLength: nat) returns (ledger: Option<SecureEvidenceLedger>)
    ensures ledger.None? <==> keyLength < MIN_KEY_LENGTH
    ensures ledger.Some? ==>
              fresh(ledger.value) && ledger.value.config == config && ledger.value.Model() == State(file, !file.Missing?)
  {
    if keyLength < MIN_KEY_LENGTH {
      return None;
    }
    var l := new SecureEvidenceLedger(config, file);
    return Some(l);
  }

  class SecureEvidenceLedger {
    const config: Config
    // The contents of the ledger's path, which other processes may change between calls.
    var file: File
    var observed: bool

    ghost function Model(): State
      reads this
    {
      State(file, observed)
    }

    constructor (config: Config, file: File)
      ensures this.config == config && Model() == State(file, !file.Missing?)
    {
      this.config := config;
      this.file := file;
      observed := !file.Missing?;
    }

    method LoadPayload() returns (r: Result<Payload, Error>)
      modifies this`observed
      ensures r == Load(config, old(Model()))
      ensures observed == (old(observed) || !file.Missing?)
    {
      match file
      case Missing =>
        r := if observed then Err(FileDisappeared) else Ok(Seal(config, Text(GENESIS), []));
      case Unreadable(bytes) =>
        observed := true;
        r := Err(if bytes > config.retention.maxStateBytes then FileTooLarge else FileUnreadable);
      case Stored(p) =>
        observed := true;
        if config.size(p) > config.retention.maxStateBytes {
          return Err(FileTooLarge);
        }
        var loaded := RereadPayload(p);
        var problem := VerifyPayload(config, loaded);
        r := if problem.Some? then Err(problem.value) else Ok(loaded);
    }

    // Lines 234-244: drop the expired events, then make room.
    method Retain(p: Payload, now: int) returns (anchor: Json, events: Events)
      ensures anchor == KeptAnchor(config, p, now) && events == KeptEvents(config, p, now)
    {
      anchor, events := p.anchor, p.events;
      var firstKeep := ExpiredCount(events, now - config.retention.maxAge);
      if firstKeep > 0 {
        anchor := Text(events[firstKeep - 1].hash);
        events := events[firstKeep..];
      }
      assert anchor == Tip(p.anchor, p.events[..firstKeep]) && events == p.events[firstKeep..];
      ghost var dropped := Dropped(p.events, now - config.retention.maxAge, config.retention.maxEvents);
      if |events| >= config.retention.maxEvents {
        var remove := |events| - config.retention.maxEvents + 1;
        CutTwice(p.anchor, p.events, firstKeep, remove);
        anchor := Text(events[remove - 1].hash);
        events := events[remove..];
        assert dropped == firstKeep + remove;
      } else {
        assert dropped == firstKeep;
      }
    }

    method Object(p: Payload) returns (objection: Option<Error>)
      ensures objection == Objection(config, p)
    {
      objection := VerifyPayload(config, p);
      if objection.None? && config.size(p) > config.retention.maxStateBytes {
        objection := Some(WouldBeTooLarge);
      }
    }

    // Lines 248-266: the new event, and the sealed envelope around it.
    method BuildPayload(anchor: Json, kept: Events, body: Body) returns (event: Entry<Body>, payload: Payload)
      ensures event == NewEvent(config, anchor, kept, body) && payload == Extended(config, anchor, kept, body)
    {
      var previous := if kept != [] then Text(kept[|kept| - 1].hash) else anchor;
      var hash := config.crypto.digest(body, previous);
      event := Entry(body, previous, hash, config.crypto.sign(hash));
      payload := Seal(config, anchor, kept + [event]);
    }

    method Append(request: Request) returns (r: Result<Entry<Body>, Error>)
      modifies this
      ensures Model() == Step(config, old(Model()), request).0
      ensures r == Step(config, old(Model()), request).1
    {
      var loaded := LoadPayload();
      if loaded.Err? {
        return Err(loaded.error);
      }
      var anchor, kept := Retain(loaded.value, request.timestamp);
      var metadata := Written(request.metadata);
      if metadata.None? {
        return Err(MetadataNotEncodable);
      }
      if config.metadataSize(metadata.value) > METADATA_LIMIT {
        return Err(MetadataTooLarge);
      }
      var body := BodyOf(request, metadata.value);
      var event, payload := BuildPayload(anchor, kept, body);
      var objection := Object(payload);
      if objection.Some? {
        return Err(objection.value);
      }
      file, observed := Stored(payload), true;
      return Ok(event);
    }

    method VerifyFile() returns (r: Result<bool, Error>)
      modifies this`observed
      ensures r == if file.Missing? then Err(NoFile)
                   else if Load(config, old(Model())).Err? then Err(Load(config, old(Model())).error) else Ok(true)
    {
      if file.Missing? {
        return Err(NoFile);
      }
      var loaded := LoadPayload();
      r := if loaded.Err? then Err(loaded.error) else Ok(true);
    }
  }
}
