/**
 * The raw happening record and the typed event model, with the equality and
 * the order that Rust derives for them: `EventType` by variant, then by
 * fields; `ZEvent` over `(timestamp, from, to, event)`, leaving out `id`.
 */
module Events {
  import opened Quantity

  /** One happening as loaded from the log: `{id, timestamp, text}`. */
  datatype Event = Event(id: U64, timestamp: U64, text: string)

  /**
   * The payload of a typed event. The source calls the zombie horde's
   * severity `level` like the numeric levels of `Cure` and `Kill`; Dafny
   * requires fields of one name to share a type, so here it is `grade`.
   */
  datatype EventType =
    | Zombie(grade: string, converted: bool, affected: Usize)
    | Cure(level: Usize, restored: bool, affected: Usize)
    | Kill(level: Usize, affected: Usize)
    | Move(nation: string)

  /** A typed event: who acted (`from`), on whom (`to`), when, and what. */
  datatype ZEvent = ZEvent(id: U64, timestamp: U64, from: string, to: string, event: EventType)

  datatype Ordering = Less | Equal | Greater {
    function Flip(): Ordering {
      match this
      case Less => Greater
      case Equal => Equal
      case Greater => Less
    }
  }

  /** Lexicographic combination: the second comparison decides only a tie. */
  function Then(first: Ordering, second: Ordering): Ordering {
    if first == Equal then second else first
  }

  function CompareInt(a: int, b: int): (r: Ordering)
    ensures r == Equal <==> a == b
    ensures r == Less <==> a < b
  {
    if a < b then Less else if a == b then Equal else Greater
  }

  /** `false < true`, as for Rust's `bool`. */
  function CompareBool(a: bool, b: bool): (r: Ordering)
    ensures r == Equal <==> a == b
    ensures r == Less <==> !a && b
  {
    CompareInt(if a then 1 else 0, if b then 1 else 0)
  }

  /**
   * Lexicographic order of strings; a proper prefix comes first. Rust
   * compares the UTF-8 bytes, which orders strings as their code points do.
   */
  function CompareString(a: string, b: string): (r: Ordering)
    ensures a < b ==> r == Less
    ensures b < a ==> r == Greater
    decreases |a|
  {
    if a == [] && b == [] then Equal
    else if a == [] then Less
    else if b == [] then Greater
    else Then(CompareInt(a[0] as int, b[0] as int), CompareString(a[1..], b[1..]))
  }

  /** Variant rank in declaration order: Zombie < Cure < Kill < Move. */
  function Rank(t: EventType): nat {
    match t
    case Zombie(_, _, _) => 0
    case Cure(_, _, _) => 1
    case Kill(_, _) => 2
    case Move(_) => 3
  }

  /**
   * The derived `Ord` of `EventType`: variant first, then the fields in
   * declaration order. Every Zombie comes before every Cure, every Cure
   * before every Kill, every Kill before every Move.
   */
  function CompareEventType(a: EventType, b: EventType): (r: Ordering)
    ensures Rank(a) < Rank(b) ==> r == Less
    ensures Rank(b) < Rank(a) ==> r == Greater
    // Within one variant the first field that differs, in declaration order, decides.
    ensures a.Zombie? && b.Zombie? ==>
      r == if a.grade != b.grade then CompareString(a.grade, b.grade)
           else if a.converted != b.converted then CompareBool(a.converted, b.converted)
           else CompareInt(a.affected, b.affected)
    ensures a.Cure? && b.Cure? ==>
      r == if a.level != b.level then CompareInt(a.level, b.level)
           else if a.restored != b.restored then CompareBool(a.restored, b.restored)
           else CompareInt(a.affected, b.affected)
    ensures a.Kill? && b.Kill? ==>
      r == if a.level != b.level then CompareInt(a.level, b.level) else CompareInt(a.affected, b.affected)
    ensures a.Move? && b.Move? ==> r == CompareString(a.nation, b.nation)
  {
    if Rank(a) != Rank(b) then CompareInt(Rank(a), Rank(b))
    else match a
      case Zombie(l, c, n) =>
        CompareStringEqual(l, b.grade);
        Then(CompareString(l, b.grade), Then(CompareBool(c, b.converted), CompareInt(n, b.affected)))
      case Cure(l, r, n) =>
        Then(CompareInt(l, b.level), Then(CompareBool(r, b.restored), CompareInt(n, b.affected)))
      case Kill(l, n) =>
        Then(CompareInt(l, b.level), CompareInt(n, b.affected))
      case Move(nation) =>
        CompareString(nation, b.nation)
  }

  /** The derived `Ord` of `ZEvent`: `(timestamp, from, to, event)`, `id` ignored. */
  function CompareZEvent(a: ZEvent, b: ZEvent): (r: Ordering)
    ensures a.timestamp < b.timestamp ==> r == Less
    ensures b.timestamp < a.timestamp ==> r == Greater
    // On equal timestamps `from` decides, then `to`, then the payload.
    ensures a.timestamp == b.timestamp && a.from != b.from ==> r == CompareString(a.from, b.from)
    ensures a.timestamp == b.timestamp && a.from == b.from && a.to != b.to ==> r == CompareString(a.to, b.to)
    ensures a.timestamp == b.timestamp && a.from == b.from && a.to == b.to ==> r == CompareEventType(a.event, b.event)
  {
    CompareStringEqual(a.from, b.from);
    CompareStringEqual(a.to, b.to);
    Then(CompareInt(a.timestamp, b.timestamp),
      Then(CompareString(a.from, b.from),
        Then(CompareString(a.to, b.to), CompareEventType(a.event, b.event))))
  }

  /** The `PartialEq` of `ZEvent`: every field but `id`. */
  predicate SameEvent(a: ZEvent, b: ZEvent)
    ensures SameEvent(a, b) <==> a.(id := b.id) == b
  {
    a.timestamp == b.timestamp && a.from == b.from && a.to == b.to && a.event == b.event
  }

  // String order

  lemma {:induction false} CompareStringEqual(a: string, b: string)
    ensures CompareString(a, b) == Equal <==> a == b
    decreases |a|
  {
    if a != [] && b != [] {
      CompareStringEqual(a[1..], b[1..]);
      assert a == [a[0]] + a[1..] && b == [b[0]] + b[1..];
    }
  }

  /** Strings agreeing on their first `i` characters are ordered by their `i`-th. */
  lemma {:induction false} CompareStringFirstDifference(a: string, b: string, i: nat)
    requires i < |a| && i < |b| && a[..i] == b[..i]
    ensures a[i] < b[i] ==> CompareString(a, b) == Less
    ensures b[i] < a[i] ==> CompareString(a, b) == Greater
    decreases i
  {
    if i > 0 {
      assert a[0] == a[..i][0] && b[0] == b[..i][0];
      assert a[1..][..i - 1] == a[..i][1..] && b[1..][..i - 1] == b[..i][1..];
      CompareStringFirstDifference(a[1..], b[1..], i - 1);
    }
  }

  lemma {:induction false} CompareStringFlip(a: string, b: string)
    ensures CompareString(b, a) == CompareString(a, b).Flip()
    decreases |a|
  {
    if a != [] && b != [] {
      CompareStringFlip(a[1..], b[1..]);
    }
  }

  lemma {:induction false} CompareStringTransitive(a: string, b: string, c: string)
    requires CompareString(a, b) == Less && CompareString(b, c) == Less
    ensures CompareString(a, c) == Less
    decreases |a|
  {
    if a != [] && b != [] && c != [] && a[0] == b[0] && b[0] == c[0] {
      CompareStringTransitive(a[1..], b[1..], c[1..]);
    }
  }

  // Payload order

  lemma CompareEventTypeEqual(a: EventType, b: EventType)
    ensures CompareEventType(a, b) == Equal <==> a == b
  {
    match a
    case Zombie(l, _, _) => if b.Zombie? { CompareStringEqual(l, b.grade); }
    case Move(n) => if b.Move? { CompareStringEqual(n, b.nation); }
    case _ =>
  }

  lemma CompareEventTypeFlip(a: EventType, b: EventType)
    ensures CompareEventType(b, a) == CompareEventType(a, b).Flip()
  {
    match a
    case Zombie(l, _, _) => if b.Zombie? { CompareStringFlip(l, b.grade); }
    case Move(n) => if b.Move? { CompareStringFlip(n, b.nation); }
    case _ =>
  }

  lemma CompareEventTypeTransitive(a: EventType, b: EventType, c: EventType)
    requires CompareEventType(a, b) == Less && CompareEventType(b, c) == Less
    ensures CompareEventType(a, c) == Less
  {
    if Rank(a) == Rank(b) == Rank(c) {
      match a
      case Zombie(l, _, _) =>
        CompareStringEqual(l, b.grade);
        CompareStringEqual(b.grade, c.grade);
        CompareStringEqual(l, c.grade);
        if CompareString(l, b.grade) == Less && CompareString(b.grade, c.grade) == Less {
          CompareStringTransitive(l, b.grade, c.grade);
        }
      case Move(n) =>
        CompareStringTransitive(n, b.nation, c.nation);
      case _ =>
    }
  }

  // Event order

  /** The order calls two events equal exactly when `==` does: on everything but `id`. */
  lemma CompareZEventEqual(a: ZEvent, b: ZEvent)
    ensures CompareZEvent(a, b) == Equal <==> SameEvent(a, b)
  {
    CompareStringEqual(a.from, b.from);
    CompareStringEqual(a.to, b.to);
    CompareEventTypeEqual(a.event, b.event);
  }

  lemma CompareZEventFlip(a: ZEvent, b: ZEvent)
    ensures CompareZEvent(b, a) == CompareZEvent(a, b).Flip()
  {
    CompareStringFlip(a.from, b.from);
    CompareStringFlip(a.to, b.to);
    CompareEventTypeFlip(a.event, b.event);
  }

  lemma CompareZEventTransitive(a: ZEvent, b: ZEvent, c: ZEvent)
    requires CompareZEvent(a, b) == Less && CompareZEvent(b, c) == Less
    ensures CompareZEvent(a, c) == Less
  {
    CompareStringEqual(a.from, b.from);
    CompareStringEqual(b.from, c.from);
    CompareStringEqual(a.to, b.to);
    CompareStringEqual(b.to, c.to);
    CompareEventTypeEqual(a.event, b.event);
    CompareEventTypeEqual(b.event, c.event);
    if a.timestamp == b.timestamp == c.timestamp {
      if CompareString(a.from, b.from) == Less && CompareString(b.from, c.from) == Less {
        CompareStringTransitive(a.from, b.from, c.from);
      } else if a.from == b.from == c.from {
        if CompareString(a.to, b.to) == Less && CompareString(b.to, c.to) == Less {
          CompareStringTransitive(a.to, b.to, c.to);
        } else if a.to == b.to == c.to {
          CompareEventTypeTransitive(a.event, b.event, c.event);
        }
      }
    }
  }

  /** Events that differ only in `id` are equal and compare `Equal`: the order never looks at `id`. */
  lemma IdIgnored(a: ZEvent, id: U64)
    ensures SameEvent(a, a.(id := id))
    ensures CompareZEvent(a, a.(id := id)) == Equal
    ensures forall b :: CompareZEvent(a.(id := id), b) == CompareZEvent(a, b)
  {
    CompareZEventEqual(a, a.(id := id));
  }
}
