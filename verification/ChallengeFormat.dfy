/**
 Conversion between the challenge event format and the internal envelope. Letters are ASCII, times carry their
 offset, and milliseconds are converted exactly.
 */
module ChallengeFormat {
  import opened Options
  import opened Text

  datatype InternalType =
    | Entry | Exit | ZoneEnter | ZoneExit | ZoneDwell | Dwell | QueueJoin | QueueLeave | QueueDepth | Reentry
    | OtherType(value: string)

  /** An instant, and the offset from UTC it is written with. */
  datatype Timestamp = Timestamp(instant: int, offset: int)

  datatype Metadata = Metadata(queueDepth: Option<int>, skuZone: Option<string>, sessionSeq: Option<int>)

  datatype ChallengeEvent = ChallengeEvent(id: string, store: string, camera: string, visitor: string, eventType: string,
                                           timestamp: Timestamp, zone: Option<string>, dwellMs: int, isStaff: bool,
                                           confidence: real, metadata: Metadata)

  /** The entries a payload may have; absent ones are None. */
  datatype Payload = Payload(visitor: Option<string>, zone: Option<string>, dwellSeconds: Option<real>, dwellMs: Option<int>,
                             sessionSequence: Option<int>, sessionSeq: Option<int>, skuZone: Option<string>,
                             queueDepth: Option<int>, billingQueueAbandon: bool)

  datatype Envelope = Envelope(id: string, eventType: InternalType, store: string, camera: string, occurredAt: Timestamp,
                               track: Option<int>, person: Option<string>, isStaff: bool, confidence: real, payload: Payload)

  // ---------------------------------------------------------------------------
  // Letters and type names
  // ---------------------------------------------------------------------------

  function UpperChar(c: char): char {
    if 'a' <= c <= 'z' then ((c as int) - 32) as char else c
  }

  function LowerChar(c: char): char {
    if 'A' <= c <= 'Z' then ((c as int) + 32) as char else c
  }

  function Upper(s: string): string {
    seq(|s|, i requires 0 <= i < |s| => UpperChar(s[i]))
  }

  function Lower(s: string): string {
    seq(|s|, i requires 0 <= i < |s| => LowerChar(s[i]))
  }

  /** The table of accepted names: the catalogue and the internal aliases. There is no entry for queue depth. */
  function LookUp(s: string): Option<InternalType> {
    if s == "ENTRY" || s == "entry" then Some(Entry)
    else if s == "EXIT" || s == "exit" then Some(Exit)
    else if s == "ZONE_ENTER" || s == "zone_enter" then Some(ZoneEnter)
    else if s == "ZONE_EXIT" || s == "zone_exit" then Some(ZoneExit)
    else if s == "ZONE_DWELL" || s == "zone_dwell" then Some(ZoneDwell)
    else if s == "BILLING_QUEUE_JOIN" || s == "queue_join" then Some(QueueJoin)
    else if s == "BILLING_QUEUE_ABANDON" || s == "queue_leave" then Some(QueueLeave)
    else if s == "REENTRY" || s == "reentry" then Some(Reentry)
    else None
  }

  function InternalOf(name: string): InternalType {
    if LookUp(Upper(name)).Some? then LookUp(Upper(name)).value
    else if LookUp(Lower(name)).Some? then LookUp(Lower(name)).value
    else Entry
  }

  function CatalogueName(t: InternalType): string {
    match t
    case Entry => "ENTRY"
    case Exit => "EXIT"
    case ZoneEnter => "ZONE_ENTER"
    case ZoneExit => "ZONE_EXIT"
    case ZoneDwell => "ZONE_DWELL"
    case Dwell => "ZONE_DWELL"
    case QueueJoin => "BILLING_QUEUE_JOIN"
    case QueueLeave => "BILLING_QUEUE_ABANDON"
    case QueueDepth => "QUEUE_DEPTH"
    case Reentry => "REENTRY"
    case OtherType(value) => Upper(value)
  }

  // ---------------------------------------------------------------------------
  // Conversions
  // ---------------------------------------------------------------------------

  predicate Blank(s: Option<string>) {
    s.None? || s.value == ""
  }

  /** Python's `or` on optional text. */
  function Either(a: Option<string>, b: Option<string>): Option<string> {
    if Blank(a) then b else a
  }

  /** Truncation towards zero, as `int` does it. */
  function Truncated(x: real): int {
    if x >= 0.0 then x.Floor else -(-x).Floor
  }

  const TRACK_PREFIX := "track-"

  /** The number in a visitor name such as "track-7"; how the digits are parsed is a parameter. */
  function TrackNamed(visitor: string, trackOf: string -> Option<int>): Option<int> {
    if TRACK_PREFIX <= visitor then trackOf(visitor) else None
  }

  function ToEnvelope(e: ChallengeEvent, trackOf: string -> Option<int>): Envelope {
    var t := InternalOf(e.eventType);
    Envelope(e.id, t, e.store, e.camera, e.timestamp, TrackNamed(e.visitor, trackOf), Some(e.visitor), e.isStaff, e.confidence,
             Payload(Some(e.visitor), e.zone, Some(if e.dwellMs != 0 then e.dwellMs as real / 1000.0 else 0.0), None,
                     None, e.metadata.sessionSeq, e.metadata.skuZone, e.metadata.queueDepth,
                     t == QueueLeave && Upper(e.eventType) == "BILLING_QUEUE_ABANDON"))
  }

  /** `fallback` names visitors that have neither an id nor a track; it is random in the program. */
  function VisitorName(e: Envelope, fallback: string): string {
    var raw := Either(e.payload.visitor, e.person);
    if !Blank(raw) then raw.value
    else if e.track.Some? then TRACK_PREFIX + Decimal(e.track.value)
    else fallback
  }

  function ToChallenge(e: Envelope, fallback: string): ChallengeEvent {
    var p := e.payload;
    var seconds := if p.dwellSeconds.Some? then p.dwellSeconds.value else 0.0;
    var ms := Truncated(seconds * 1000.0);
    ChallengeEvent(
      e.id, e.store, e.camera, VisitorName(e, fallback),
      if e.eventType == Entry && p.queueDepth.Some? then "QUEUE_DEPTH" else CatalogueName(e.eventType),
      Timestamp(e.occurredAt.instant, 0),
      if Blank(p.zone) then None else p.zone,
      if (e.eventType == ZoneDwell || e.eventType == Dwell) && ms == 0 then (if p.dwellMs.Some? then p.dwellMs.value else 0) else ms,
      e.isStaff, e.confidence,
      Metadata(p.queueDepth, Either(p.skuZone, p.zone),
               if p.sessionSequence.None? || p.sessionSequence.value == 0 then p.sessionSeq else p.sessionSequence))
  }

  /** What ingesting an event and exporting it again makes of it. */
  function Normalised(e: ChallengeEvent, trackOf: string -> Option<int>, fallback: string): ChallengeEvent {
    ToChallenge(ToEnvelope(e, trackOf), fallback)
  }

  // ---------------------------------------------------------------------------
  // What normalising does to each field
  // ---------------------------------------------------------------------------

  function NormalisedType(name: string, depth: Option<int>): string {
    var t := InternalOf(name);
    if t == Entry && depth.Some? then "QUEUE_DEPTH" else CatalogueName(t)
  }

  lemma {:induction false} MillisecondsExact(ms: int)
    ensures Truncated((if ms != 0 then ms as real / 1000.0 else 0.0) * 1000.0) == ms
  {
    if ms != 0 {
      assert (ms as real / 1000.0) * 1000.0 == ms as real;
    }
  }

  /** An event without a visitor is given a fresh one. */
  function NamedVisitor(visitor: string, fallback: string): string {
    if visitor != "" then visitor else fallback
  }

  /** Normalising rewrites visitor, type, offset, zone and product zone, and nothing else. */
  lemma {:induction false} NormalisedExactly(e: ChallengeEvent, trackOf: string -> Option<int>, fallback: string)
    ensures Normalised(e, trackOf, fallback) ==
      e.(visitor := NamedVisitor(e.visitor, fallback),
         eventType := NormalisedType(e.eventType, e.metadata.queueDepth),
         timestamp := Timestamp(e.timestamp.instant, 0),
         zone := if Blank(e.zone) then None else e.zone,
         metadata := e.metadata.(skuZone := Either(e.metadata.skuZone, e.zone)))
  {
    hide InternalOf, CatalogueName, Upper, Truncated, Decimal;
    MillisecondsExact(e.dwellMs);
  }

  // ---------------------------------------------------------------------------
  // Types
  // ---------------------------------------------------------------------------

  lemma {:induction false} UpperFixed(s: string)
    requires forall i | 0 <= i < |s| :: !('a' <= s[i] <= 'z')
    ensures Upper(s) == s
  {
  }

  lemma {:induction false} LowerAt(s: string, i: nat)
    requires i < |s|
    ensures |Lower(s)| == |s| && Lower(s)[i] == LowerChar(s[i])
  {
  }

  /** The names that exports use. */
  predicate InCatalogue(name: string) {
    || name == "ENTRY" || name == "EXIT" || name == "ZONE_ENTER" || name == "ZONE_EXIT" || name == "ZONE_DWELL"
    || name == "BILLING_QUEUE_JOIN" || name == "BILLING_QUEUE_ABANDON" || name == "REENTRY"
  }

  lemma {:induction false} CatalogueIsUpper(name: string)
    requires InCatalogue(name)
    ensures Upper(name) == name
  {
    UpperFixed(name);
  }

  lemma {:induction false} InternalIsImportable(name: string)
    ensures InCatalogue(CatalogueName(InternalOf(name)))
  {
    hide Upper, Lower;
  }

  /** A catalogue name is read as its type and written back as itself. */
  lemma {:induction false} CatalogueRoundTrip(name: string)
    requires InCatalogue(name)
    ensures CatalogueName(InternalOf(name)) == name && (InternalOf(name) == Entry <==> name == "ENTRY")
  {
    CatalogueIsUpper(name);
    hide Upper, Lower;
  }

  /** Queue depth is not in the table, so it is read as an entry. */
  lemma {:induction false} QueueDepthIsReadAsEntry()
    ensures InternalOf("QUEUE_DEPTH") == Entry && CatalogueName(Entry) == "ENTRY"
  {
    UpperFixed("QUEUE_DEPTH");
    LowerAt("QUEUE_DEPTH", 6);
    LowerAt("QUEUE_DEPTH", 0);
    hide Upper, Lower;
  }

  /** What each accepted name means, in any capitalisation. */
  lemma {:induction false} NamesMean(name: string)
    ensures Upper(name) == "ENTRY" ==> InternalOf(name) == Entry
    ensures Upper(name) == "EXIT" ==> InternalOf(name) == Exit
    ensures Upper(name) == "ZONE_ENTER" ==> InternalOf(name) == ZoneEnter
    ensures Upper(name) == "ZONE_EXIT" ==> InternalOf(name) == ZoneExit
    ensures Upper(name) == "ZONE_DWELL" ==> InternalOf(name) == ZoneDwell
    ensures Upper(name) == "BILLING_QUEUE_JOIN" ==> InternalOf(name) == QueueJoin
    ensures Upper(name) == "BILLING_QUEUE_ABANDON" ==> InternalOf(name) == QueueLeave
    ensures Upper(name) == "REENTRY" ==> InternalOf(name) == Reentry
  {
    hide Upper, Lower;
  }

  /** Two types have an alias that is not a catalogue name in other letters. */
  lemma {:induction false} AliasesMean(name: string)
    requires Lower(name) == "queue_join" || Lower(name) == "queue_leave"
    ensures InternalOf(name) == if Lower(name) == "queue_join" then QueueJoin else QueueLeave
  {
    FirstIsQ(name);
    hide Upper, Lower;
    QIsNoCatalogueName(Upper(name));
  }

  lemma {:induction false} QIsNoCatalogueName(name: string)
    requires name != [] && name[0] == 'Q'
    ensures LookUp(name).None?
  {
  }

  lemma {:induction false} FirstIsQ(name: string)
    requires Lower(name) != [] && Lower(name)[0] == 'q'
    ensures Upper(name) != [] && Upper(name)[0] == 'Q'
  {
  }

  /** Only an entry is written as one. */
  lemma {:induction false} ImportedNames(name: string)
    ensures CatalogueName(InternalOf(name)) == "ENTRY" <==> InternalOf(name) == Entry
  {
    hide Upper, Lower;
  }

  lemma {:induction false} NormalisedTypeTwice(name: string, depth: Option<int>)
    ensures NormalisedType(NormalisedType(name, depth), depth) == NormalisedType(name, depth)
  {
    hide InternalOf, InCatalogue, Upper;
    QueueDepthIsReadAsEntry();
    InternalIsImportable(name);
    CatalogueRoundTrip(CatalogueName(InternalOf(name)));
    ImportedNames(name);
  }

  /** A type is left as it is when it is a catalogue name that its queue depth does not contradict. */
  predicate StableType(name: string, depth: Option<int>) {
    if name == "QUEUE_DEPTH" then depth.Some? else InCatalogue(name) && (name == "ENTRY" ==> depth.None?)
  }

  lemma {:induction false} StableTypeExactly(name: string, depth: Option<int>)
    ensures NormalisedType(name, depth) == name <==> StableType(name, depth)
  {
    hide InternalOf, CatalogueName;
    QueueDepthIsReadAsEntry();
    InternalIsImportable(name);
    if InCatalogue(name) {
      CatalogueRoundTrip(name);
    }
  }

  // ---------------------------------------------------------------------------
  // What the two conversions say
  // ---------------------------------------------------------------------------

  /** The visitor is the person, and the track if it is named after one; a queue was abandoned if the event says so itself. */
  lemma {:induction false} ImportMeans(e: ChallengeEvent, trackOf: string -> Option<int>)
    ensures var v := ToEnvelope(e, trackOf); var p := v.payload;
      && v.person == p.visitor == Some(e.visitor)
      && v.track == (if TRACK_PREFIX <= e.visitor then trackOf(e.visitor) else None)
      && (p.billingQueueAbandon <==> Upper(e.eventType) == "BILLING_QUEUE_ABANDON")
      && p.dwellSeconds.Some? && p.dwellSeconds.value * 1000.0 == e.dwellMs as real
  {
    NamesMean(e.eventType);
    hide Upper, InternalOf;
  }

  /** Whole milliseconds of some seconds, towards zero. */
  predicate IsMilliseconds(seconds: real, ms: int) {
    var exact := seconds * 1000.0;
    if exact >= 0.0 then ms as real <= exact < (ms + 1) as real else (ms - 1) as real < exact <= ms as real
  }

  lemma {:induction false} TruncatedMeans(seconds: real)
    ensures IsMilliseconds(seconds, Truncated(seconds * 1000.0))
  {
  }

  /** Who a visitor is called, the first of: the payload's visitor, the person, the track. */
  predicate IsCalled(e: Envelope, name: string) {
    if !Blank(e.payload.visitor) then Some(name) == e.payload.visitor
    else if !Blank(e.person) then Some(name) == e.person
    else e.track.Some? ==> name == "track-" + Decimal(e.track.value)
  }

  /** The dwell in milliseconds; only a dwell event without seconds falls back to the milliseconds it carries. */
  lemma {:induction false} ExportMeans(e: Envelope, fallback: string)
    ensures var c, p := ToChallenge(e, fallback), e.payload;
      var seconds := if p.dwellSeconds.Some? then p.dwellSeconds.value else 0.0;
      && IsCalled(e, c.visitor)
      && (if e.eventType in {ZoneDwell, Dwell} && IsMilliseconds(seconds, 0) then
            c.dwellMs == (if p.dwellMs.Some? then p.dwellMs.value else 0)
          else IsMilliseconds(seconds, c.dwellMs))
      && (p.sessionSequence.Some? && p.sessionSequence.value != 0 ==> c.metadata.sessionSeq == p.sessionSequence)
      && (p.sessionSequence.None? || p.sessionSequence.value == 0 ==> c.metadata.sessionSeq == p.sessionSeq)
  {
    var p := e.payload;
    TruncatedMeans(if p.dwellSeconds.Some? then p.dwellSeconds.value else 0.0);
    hide Truncated, CatalogueName, Decimal;
  }

  /** Types outside the catalogue are exported in capitals, queue depth under its own name, both kinds of dwell as one. */
  lemma {:induction false} ExportedNames(e: Envelope, fallback: string)
    ensures var name := ToChallenge(e, fallback).eventType;
      && (e.eventType.OtherType? ==> name == Upper(e.eventType.value))
      && (e.eventType in {ZoneDwell, Dwell} ==> name == "ZONE_DWELL")
      && (name == "QUEUE_DEPTH" && !e.eventType.OtherType? <==>
            e.eventType == QueueDepth || (e.eventType == Entry && e.payload.queueDepth.Some?))
  {
    hide Upper, Truncated, VisitorName;
  }

  // ---------------------------------------------------------------------------
  // Main results
  // ---------------------------------------------------------------------------

  /** An empty zone name that would have to stand in for the product zone. */
  predicate EmptyZoneLeaks(e: ChallengeEvent) {
    e.zone == Some("") && Blank(e.metadata.skuZone)
  }

  /**
   Normalising twice is normalising once, exactly when no empty zone name leaks into the product zone. A visitor
   without an id is named the first time, whatever fresh name the second time would have drawn.
   */
  lemma {:induction false} NormalisingIsIdempotent(e: ChallengeEvent, trackOf: string -> Option<int>,
                                                   fallback: string, second: string)
    requires fallback != ""
    ensures var once := Normalised(e, trackOf, fallback);
      Normalised(once, trackOf, second) == once <==> !EmptyZoneLeaks(e)
  {
    hide Normalised, NormalisedType;
    var once := Normalised(e, trackOf, fallback);
    NormalisedExactly(e, trackOf, fallback);
    NormalisedExactly(once, trackOf, second);
    NormalisedTypeTwice(e.eventType, e.metadata.queueDepth);
  }

  /** The events that exports consist of. */
  predicate Canonical(e: ChallengeEvent) {
    && e.visitor != ""
    && StableType(e.eventType, e.metadata.queueDepth)
    && e.timestamp.offset == 0
    && e.zone != Some("")
    && (if e.zone.Some? then !Blank(e.metadata.skuZone) else e.metadata.skuZone != Some(""))
  }

  /** Normalising leaves exactly the canonical events as they are. */
  lemma {:induction false} NormalisingKeepsCanonical(e: ChallengeEvent, trackOf: string -> Option<int>,
          fallback: string)
    requires fallback != ""
    ensures Normalised(e, trackOf, fallback) == e <==> Canonical(e)
  {
    hide Normalised, NormalisedType, StableType;
    NormalisedExactly(e, trackOf, fallback);
    StableTypeExactly(e.eventType, e.metadata.queueDepth);
  }

  /** What normalising produces is canonical unless the empty zone name leaked. */
  lemma {:induction false} NormalisedIsCanonical(e: ChallengeEvent, trackOf: string -> Option<int>, fallback: string)
    requires fallback != ""
    ensures Canonical(Normalised(e, trackOf, fallback)) <==> !EmptyZoneLeaks(e)
  {
    hide Normalised, NormalisedType, Canonical, EmptyZoneLeaks;
    NormalisingIsIdempotent(e, trackOf, fallback, fallback);
    NormalisingKeepsCanonical(Normalised(e, trackOf, fallback), trackOf, fallback);
  }
}
