/**
 Event ids are computed from names, so two events have the same id exactly when they have the same name (section
 5.5 of RFC 9562, leaving hash collisions aside). Names say who did what, where and in which frame.
 */
module EventIdentity {
  import opened Text

  datatype EventType =
    | EntryType | ExitType | ReentryType | ZoneEnterType | ZoneExitType | ZoneDwellType
    | QueueJoinType | QueueLeaveType | QueueDepthType

  function TypeName(t: EventType): string {
    match t
    case EntryType => "entry"
    case ExitType => "exit"
    case ReentryType => "reentry"
    case ZoneEnterType => "zone_enter"
    case ZoneExitType => "zone_exit"
    case ZoneDwellType => "zone_dwell"
    case QueueJoinType => "queue_join"
    case QueueLeaveType => "queue_leave"
    case QueueDepthType => "queue_depth"
  }

  function NameString(store: string, camera: string, t: EventType, track: int, frame: int, subtype: string): string {
    store + ":" + (camera + ":" + (TypeName(t) + ":" + (Decimal(track) + ":" + (Decimal(frame) + ":" + subtype))))
  }

  /** A type's name is told by its length and last letter. */
  lemma {:induction false} TypeNamesDiffer(s: EventType, t: EventType)
    requires |TypeName(s)| == |TypeName(t)| && TypeName(s)[|TypeName(s)| - 1] == TypeName(t)[|TypeName(t)| - 1]
    ensures s == t
  {
  }

  lemma {:induction false} TypeNameColonFree(t: EventType)
    ensures ColonFree(TypeName(t)) && TypeName(t) != []
  {
  }

  /** After store and camera, a name is read in one way only, whatever the subtype contains. */
  lemma {:induction false} TailInjective(s: EventType, t: EventType, m: int, n: int, f: int, g: int, x: string,
                                         y: string)
    requires TypeName(s) + ":" + (Decimal(m) + ":" + (Decimal(f) + ":" + x))
      == TypeName(t) + ":" + (Decimal(n) + ":" + (Decimal(g) + ":" + y))
    ensures s == t && m == n && f == g && x == y
  {
    hide TypeName, Decimal;
    TypeNameColonFree(s);
    TypeNameColonFree(t);
    DecimalColonFree(m);
    DecimalColonFree(n);
    DecimalColonFree(f);
    DecimalColonFree(g);
    SplitAtFirstColon(TypeName(s), Decimal(m) + ":" + (Decimal(f) + ":" + x), TypeName(t), Decimal(n) + ":" + (Decimal(g) + ":" + y));
    SplitAtFirstColon(Decimal(m), Decimal(f) + ":" + x, Decimal(n), Decimal(g) + ":" + y);
    SplitAtFirstColon(Decimal(f), x, Decimal(g), y);
    TypeNamesDiffer(s, t);
    DecimalInjective(m, n);
    DecimalInjective(f, g);
  }

  /** For one store and camera the name tells type, track, frame and subtype. */
  lemma {:induction false} NameInjective(store: string, camera: string, s: EventType, t: EventType, m: int, n: int,
                                         f: int, g: int, x: string, y: string)
    requires NameString(store, camera, s, m, f, x) == NameString(store, camera, t, n, g, y)
    ensures s == t && m == n && f == g && x == y
  {
    var a := TypeName(s) + ":" + (Decimal(m) + ":" + (Decimal(f) + ":" + x));
    var b := TypeName(t) + ":" + (Decimal(n) + ":" + (Decimal(g) + ":" + y));
    SamePrefix(store + ":" + (camera + ":"), a, b, NameString(store, camera, s, m, f, x)) by {
      NameParts(store, camera, a);
      NameParts(store, camera, b);
    }
    TailInjective(s, t, m, n, f, g, x, y);
  }

  lemma {:induction false} NameParts(store: string, camera: string, rest: string)
    ensures store + ":" + (camera + ":" + rest) == (store + ":" + (camera + ":")) + rest
  {
  }

  lemma {:induction false} SamePrefix(p: string, a: string, b: string, s: string)
    requires s == p + a && s == p + b
    ensures a == b
  {
    assert a == s[|p|..] && b == s[|p|..];
  }

  /** Stores and cameras without a colon are told as well. */
  lemma {:induction false} StoreAndCameraTold(store: string, camera: string, store': string, camera': string,
                                              s: EventType, t: EventType, m: int, n: int, f: int, g: int, x: string,
                                              y: string)
    requires ColonFree(store) && ColonFree(camera) && ColonFree(store') && ColonFree(camera')
    requires NameString(store, camera, s, m, f, x) == NameString(store', camera', t, n, g, y)
    ensures store == store' && camera == camera' && s == t && m == n && f == g && x == y
  {
    hide TypeName, Decimal;
    var a := TypeName(s) + ":" + (Decimal(m) + ":" + (Decimal(f) + ":" + x));
    var b := TypeName(t) + ":" + (Decimal(n) + ":" + (Decimal(g) + ":" + y));
    SplitAtFirstColon(store, camera + ":" + a, store', camera' + ":" + b);
    SplitAtFirstColon(camera, a, camera', b);
    TailInjective(s, t, m, n, f, g, x, y);
  }

  /** Two sources share the names of their events exactly when store and camera, joined by a colon, are the same text. */
  lemma {:induction false} SourcesConfusedExactly(store: string, camera: string, store': string, camera': string,
                                                  t: EventType, track: int, frame: int, subtype: string)
    ensures NameString(store, camera, t, track, frame, subtype) == NameString(store', camera', t, track, frame, subtype)
      <==> store + ":" + camera == store' + ":" + camera'
  {
    hide TypeName, Decimal;
    var rest := ":" + (TypeName(t) + ":" + (Decimal(track) + ":" + (Decimal(frame) + ":" + subtype)));
    var a, b := store + ":" + camera, store' + ":" + camera';
    var name, name' := NameString(store, camera, t, track, frame, subtype), NameString(store', camera', t, track, frame, subtype);
    assert name == a + rest && name' == b + rest;
    hide *;
    if name == name' {
      SameSuffix(a, b, rest, name);
    }
  }

  /** With colons they are not: two different sources share every name. */
  lemma {:induction false} ColonsConfuseStores(t: EventType, track: int, frame: int, subtype: string)
    ensures NameString("a:b", "c", t, track, frame, subtype) == NameString("a", "b:c", t, track, frame, subtype)
  {
    hide TypeName, Decimal;
    var rest := TypeName(t) + ":" + (Decimal(track) + ":" + (Decimal(frame) + ":" + subtype));
    assert "a:b" + ":" + ("c" + ":" + rest) == "a" + ":" + ("b:c" + ":" + rest);
  }

  // ---------------------------------------------------------------------------
  // What the engines put into a name
  // ---------------------------------------------------------------------------

  /** Who did what, where and when; `number` counts the visits of a zone or queue, or names a returning visitor. */
  datatype Ident = Ident(eventType: EventType, track: int, frame: int, region: string, number: nat)

  /** The form of the subtype depends on the engine that raises the type. */
  function Subtype(i: Ident): string {
    match i.eventType
    case EntryType => i.region + ":" + "entry"
    case ExitType => i.region + ":" + "exit"
    case ReentryType => Natural(i.number)
    case ZoneEnterType => i.region + ":s" + Natural(i.number)
    case ZoneExitType => i.region + ":s" + Natural(i.number)
    case ZoneDwellType => i.region + ":s" + Natural(i.number)
    case QueueJoinType => i.region + ":q" + Natural(i.number)
    case QueueLeaveType => i.region + ":q" + Natural(i.number)
    case QueueDepthType => "depth:" + i.region
  }

  /** Parts that a type does not use are blank. */
  predicate Proper(i: Ident) {
    && (i.eventType.EntryType? || i.eventType.ExitType? || i.eventType.QueueDepthType? ==> i.number == 0)
    && (i.eventType.ReentryType? ==> i.region == "")
  }

  function NameOf(store: string, camera: string, i: Ident): string {
    NameString(store, camera, i.eventType, i.track, i.frame, Subtype(i))
  }

  /** The words of the names: the types as the event schema spells them, and what tells events of one track and frame apart. */
  lemma {:induction false} WordsRead(i: Ident)
    ensures TypeName(EntryType) == "entry" && TypeName(ExitType) == "exit" && TypeName(ReentryType) == "reentry"
    ensures TypeName(ZoneEnterType) == "zone_enter" && TypeName(ZoneExitType) == "zone_exit"
    ensures TypeName(ZoneDwellType) == "zone_dwell" && TypeName(QueueJoinType) == "queue_join"
    ensures TypeName(QueueLeaveType) == "queue_leave" && TypeName(QueueDepthType) == "queue_depth"
    ensures i.eventType in {EntryType, ExitType} ==> Subtype(i) == i.region + ":" + TypeName(i.eventType)
    ensures i.eventType in {ZoneEnterType, ZoneExitType, ZoneDwellType} ==> Subtype(i) == i.region + ":s" + Natural(i.number)
    ensures i.eventType in {QueueJoinType, QueueLeaveType} ==> Subtype(i) == i.region + ":q" + Natural(i.number)
  {
    hide Natural;
  }

  lemma {:induction false} SameSuffix(a: string, b: string, suffix: string, s: string)
    requires s == a + suffix && s == b + suffix
    ensures a == b
  {
    assert a == s[..|s| - |suffix|] && b == s[..|s| - |suffix|];
  }

  lemma {:induction false} NumberedInjective(a: string, mark: string, m: nat, b: string, n: nat)
    requires |mark| == 2 && !('0' <= mark[1] <= '9') && a + mark + Natural(m) == b + mark + Natural(n)
    ensures a == b && m == n
  {
    hide Natural;
    assert a + mark == (a + [mark[0]]) + [mark[1]] && b + mark == (b + [mark[0]]) + [mark[1]];
    SplitBeforeDigits(a + [mark[0]], mark[1], m, b + [mark[0]], n);
    assert (a + [mark[0]])[..|a|] == a && (b + [mark[0]])[..|b|] == b;
  }

  lemma {:induction false} SubtypeInjective(i: Ident, j: Ident)
    requires Proper(i) && Proper(j) && i.eventType == j.eventType && Subtype(i) == Subtype(j)
    ensures i.region == j.region && i.number == j.number
  {
    hide Natural;
    match i.eventType
    case EntryType => SameSuffix(i.region, j.region, ":" + "entry", Subtype(i)) by { SuffixForm(i.region, j.region, "entry"); }
    case ExitType => SameSuffix(i.region, j.region, ":" + "exit", Subtype(i)) by { SuffixForm(i.region, j.region, "exit"); }
    case ReentryType => NaturalInjective(i.number, j.number);
    case ZoneEnterType => NumberedInjective(i.region, ":s", i.number, j.region, j.number);
    case ZoneExitType => NumberedInjective(i.region, ":s", i.number, j.region, j.number);
    case ZoneDwellType => NumberedInjective(i.region, ":s", i.number, j.region, j.number);
    case QueueJoinType => NumberedInjective(i.region, ":q", i.number, j.region, j.number);
    case QueueLeaveType => NumberedInjective(i.region, ":q", i.number, j.region, j.number);
    case QueueDepthType => SamePrefix("depth:", i.region, j.region, Subtype(i));
  }

  lemma {:induction false} SuffixForm(a: string, b: string, word: string)
    ensures a + ":" + word == a + (":" + word) && b + ":" + word == b + (":" + word)
  {
  }

  /** Within one store and camera, the name of an engine's event tells the event. */
  lemma {:induction false} NamesTellIdents(store: string, camera: string, i: Ident, j: Ident)
    requires Proper(i) && Proper(j) && NameOf(store, camera, i) == NameOf(store, camera, j)
    ensures i == j
  {
    hide NameString, Subtype, Proper;
    NameInjective(store, camera, i.eventType, j.eventType, i.track, j.track, i.frame, j.frame, Subtype(i), Subtype(j));
    SubtypeInjective(i, j);
  }
}
