/**
 * `ZEvent::from_event`: turn one happening record into at most one typed
 * event by trying CURE, ZOMBIE, KILL and MOVE in that order. Where the source
 * panics (`c["from"]` on a group that did not take part, an unknown numeral,
 * `unwrap` of a failed integer parse) the model returns `Err`.
 */
module Parser {
  import opened Results
  import opened Lexical
  import opened Quantity
  import opened Events
  import opened Grammars

  /** The reasons `from_event` panics. */
  datatype ParseError =
    | MissingGroup(name: string)     // `c[name]` on a group that did not take part in the match
    | InvalidNumeral(numeral: string) // `panic!("Invalid numeral {}", s)`
    | IntError(kind: IntErrorKind)   // `.parse::<usize>().unwrap()`

  /** `c[name]` */
  function Group(c: Captures, name: string): (r: Result<string, ParseError>)
    ensures r.Ok? <==> name in c
    ensures r.Ok? ==> r.value == c[name]
    ensures r.Err? ==> r.error == MissingGroup(name)
  {
    if name in c then Ok(c[name]) else Err(MissingGroup(name))
  }

  /** `s.parse::<usize>().unwrap()` */
  function Integer(s: string): (r: Result<Usize, ParseError>)
    ensures r.Ok? <==> IsUsizeText(s)
    ensures r.Ok? ==> r.value == Value(DigitsOf(s))
    ensures r.Err? ==> r.error == IntError(ParseUsize(s).error)
    ensures r.Err? ==> r.error.IntError? && (r.error.kind == Empty <==> s == [])
  {
    match ParseUsize(s)
    case Ok(n) => Ok(n)
    case Err(kind) => Err(IntError(kind))
  }

  /** `c["affected"].split(',').collect::<String>().parse::<usize>().unwrap()` */
  function Affected(text: string): (r: Result<Usize, ParseError>)
    ensures r.Ok? <==> IsUsizeText(StripCommas(text))
    ensures r.Ok? ==> r.value == Value(DigitsOf(StripCommas(text)))
    ensures r.Err? ==> r.error == IntError(ParseQuantity(text).error)
    ensures r.Err? ==> r.error.IntError? && (r.error.kind == Empty <==> forall i :: 0 <= i < |text| ==> text[i] == ',')
  {
    match ParseQuantity(text)
    case Ok(n) => Ok(n)
    case Err(kind) => Err(IntError(kind))
  }

  /** The Roman numeral of a Cure level. */
  function Roman(level: int): string
    requires 1 <= level <= 5
  {
    ["I", "II", "III", "IV", "V"][level - 1]
  }

  /** The numeral match of `from_event`: I, II, III, IV and V and nothing else. */
  function CureLevel(numeral: string): (r: Result<Usize, ParseError>)
    ensures r.Ok? ==> 1 <= r.value <= 5 && Roman(r.value) == numeral
    ensures r.Err? ==> r.error == InvalidNumeral(numeral)
  {
    if numeral == "I" then Ok(1)
    else if numeral == "II" then Ok(2)
    else if numeral == "III" then Ok(3)
    else if numeral == "IV" then Ok(4)
    else if numeral == "V" then Ok(5)
    else Err(InvalidNumeral(numeral))
  }

  /** Every level has its numeral, so together with the contract of CureLevel the mapping is exact. */
  lemma CureLevelRoman(level: int)
    requires 1 <= level <= 5
    ensures CureLevel(Roman(level)) == Ok(level)
  {
    assert Roman(level) == ["I", "II", "III", "IV", "V"][level - 1];
  }

  /** Text that none of the four grammars matches. */
  predicate Unrecognised(t: string) {
    CureCaptures(t).None? && ZombieCaptures(t).None? && KillCaptures(t).None? && MoveCaptures(t).None?
  }

  /**
   * What a parsed event says about its text, in terms of the typed matches:
   * which grammar was the first to match, which actors were extracted
   * (for the attacks `to` before "was" and `from` after "from"; for a move
   * the regions), and how the level and quantity were read.
   */
  predicate Extracted(t: string, z: ZEvent) {
    match z.event
    case Cure(level, restored, affected) =>
      && MatchCure(t).Some?
      && var m := MatchCure(t).value;
      && z.to == m.to && z.from == m.from
      && ParseQuantity(m.affected) == Ok(affected)
      && CureLevel(m.level) == Ok(level)
      && !restored
    case Zombie(grade, converted, affected) =>
      && CureCaptures(t).None?
      && MatchZombie(t).Some?
      && var m := MatchZombie(t).value;
      && z.to == m.to && z.from == m.from
      && grade == m.level
      && ParseQuantity(m.affected) == Ok(affected)
      && converted == m.converted
    case Kill(level, affected) =>
      && CureCaptures(t).None? && MatchZombie(t).None?
      && MatchKill(t).Some?
      && var m := MatchKill(t).value;
      && z.to == m.to && z.from == m.from
      && ParseQuantity(m.affected) == Ok(affected)
      && level == DigitValue(m.level) && 1 <= level <= 5
    case Move(nation) =>
      && CureCaptures(t).None? && MatchZombie(t).None? && MatchKill(t).None?
      && MatchMove(t).Some?
      && var m := MatchMove(t).value;
      && nation == m.nation && z.from == m.from && z.to == m.to
  }

  lemma SingleDigit(c: char)
    requires IsAsciiDigit(c)
    ensures ParseUsize([c]) == Ok(DigitValue(c))
  {
    assert DigitsOf([c]) == [c];
    assert [c][..0] == [];
    assert AllAsciiDigits([c]);
    assert Value([c]) == DigitValue(c);
  }

  /** The CURE arm of `from_event`. */
  function CureEvent(e: Event): (r: Result<ZEvent, ParseError>)
    requires CureCaptures(e.text).Some?
    ensures r.Ok? ==> r.value.id == e.id && r.value.timestamp == e.timestamp && r.value.event.Cure?
    ensures r.Ok? ==> Extracted(e.text, r.value)
    ensures r == Err(MissingGroup("from")) <==> MatchCure(e.text).None?
    ensures MatchCure(e.text).Some? ==>
      (r.Ok? <==> ParseQuantity(MatchCure(e.text).value.affected).Ok? && CureLevel(MatchCure(e.text).value.level).Ok?)
    ensures r.Err? && r.error.IntError? ==>
      MatchCure(e.text).Some? && Affected(MatchCure(e.text).value.affected) == Err(r.error)
    ensures MatchCure(e.text).Some? && ParseQuantity(MatchCure(e.text).value.affected).Err? ==>
      r.Err? && Affected(MatchCure(e.text).value.affected) == Err(r.error)
    ensures r.Err? && r.error.InvalidNumeral? ==>
      MatchCure(e.text).Some? && r.error.numeral == MatchCure(e.text).value.level
  {
    var c := CureCaptures(e.text).value;
    match Group(c, "from")
    case Err(x) => Err(x)
    case Ok(from) =>
    match Group(c, "to")
    case Err(x) => Err(x)
    case Ok(to) =>
    match Group(c, "affected")
    case Err(x) => Err(x)
    case Ok(affectedText) =>
    match Affected(affectedText)
    case Err(x) => Err(x)
    case Ok(affected) =>
    match Group(c, "level")
    case Err(x) => Err(x)
    case Ok(numeral) =>
    match CureLevel(numeral)
    case Err(x) => Err(x)
    case Ok(level) =>
    var restored := "restore" in c;
    Ok(ZEvent(e.id, e.timestamp, from, to, Cure(level, restored, affected)))
  }

  /** The ZOMBIE arm of `from_event`: its only failure is the quantity. */
  function ZombieEvent(e: Event): (r: Result<ZEvent, ParseError>)
    requires CureCaptures(e.text).None? && ZombieCaptures(e.text).Some?
    ensures r.Ok? ==> r.value.id == e.id && r.value.timestamp == e.timestamp && r.value.event.Zombie?
    ensures r.Ok? ==> Extracted(e.text, r.value)
    ensures r.Ok? <==> ParseQuantity(MatchZombie(e.text).value.affected).Ok?
    ensures r.Err? ==> Affected(MatchZombie(e.text).value.affected) == Err(r.error)
  {
    var m := MatchZombie(e.text).value;
    var c := ZombieCaptures(e.text).value;
    match Group(c, "from")
    case Err(x) => Err(x)
    case Ok(from) =>
    match Group(c, "to")
    case Err(x) => Err(x)
    case Ok(to) =>
    match Group(c, "level")
    case Err(x) => Err(x)
    case Ok(grade) =>
    match Group(c, "affected")
    case Err(x) => Err(x)
    case Ok(affectedText) =>
    match Affected(affectedText)
    case Err(x) => Err(x)
    case Ok(affected) =>
    var converted := "convert" in c;
    Ok(ZEvent(e.id, e.timestamp, from, to, Zombie(grade, converted, affected)))
  }

  /** The KILL arm of `from_event`: its only failure is the quantity, the level being one digit. */
  function KillEvent(e: Event): (r: Result<ZEvent, ParseError>)
    requires CureCaptures(e.text).None? && ZombieCaptures(e.text).None? && KillCaptures(e.text).Some?
    ensures r.Ok? ==> r.value.id == e.id && r.value.timestamp == e.timestamp && r.value.event.Kill?
    ensures r.Ok? ==> Extracted(e.text, r.value)
    ensures r.Ok? <==> ParseQuantity(MatchKill(e.text).value.affected).Ok?
    ensures r.Err? ==> Affected(MatchKill(e.text).value.affected) == Err(r.error)
  {
    var m := MatchKill(e.text).value;
    var c := KillCaptures(e.text).value;
    match Group(c, "from")
    case Err(x) => Err(x)
    case Ok(from) =>
    match Group(c, "to")
    case Err(x) => Err(x)
    case Ok(to) =>
    match Group(c, "affected")
    case Err(x) => Err(x)
    case Ok(affectedText) =>
    match Affected(affectedText)
    case Err(x) => Err(x)
    case Ok(affected) =>
    match Group(c, "level")
    case Err(x) => Err(x)
    case Ok(levelText) =>
    SingleDigit(MatchKill(e.text).value.level);
    match Integer(levelText)
    case Err(x) => Err(x)
    case Ok(level) =>
    Ok(ZEvent(e.id, e.timestamp, from, to, Kill(level, affected)))
  }

  /** The MOVE arm of `from_event`: it cannot fail. */
  function MoveEvent(e: Event): (r: Result<ZEvent, ParseError>)
    requires CureCaptures(e.text).None? && ZombieCaptures(e.text).None? && KillCaptures(e.text).None?
    requires MoveCaptures(e.text).Some?
    ensures r.Ok? && r.value.id == e.id && r.value.timestamp == e.timestamp && r.value.event.Move?
    ensures Extracted(e.text, r.value)
  {
    var c := MoveCaptures(e.text).value;
    match Group(c, "from")
    case Err(x) => Err(x)
    case Ok(from) =>
    match Group(c, "to")
    case Err(x) => Err(x)
    case Ok(to) =>
    match Group(c, "nation")
    case Err(x) => Err(x)
    case Ok(nation) =>
    Ok(ZEvent(e.id, e.timestamp, from, to, Move(nation)))
  }

  function Found(r: Result<ZEvent, ParseError>): Result<Option<ZEvent>, ParseError> {
    match r
    case Ok(z) => Ok(Some(z))
    case Err(x) => Err(x)
  }

  /** `ZEvent::from_event`: the first grammar that matches decides; none matching is no event and no error. */
  function FromEvent(e: Event): (r: Result<Option<ZEvent>, ParseError>)
    ensures r == Ok(None) <==> Unrecognised(e.text)
    ensures r.Ok? && r.value.Some? ==> r.value.value.id == e.id && r.value.value.timestamp == e.timestamp
    ensures r.Ok? && r.value.Some? ==> Extracted(e.text, r.value.value)
    ensures r == Err(MissingGroup("from")) <==> MatchCure(e.text).None? && EndsWith(e.text, RESTORE_TAIL)
    ensures r.Err? && r.error.InvalidNumeral? ==>
      MatchCure(e.text).Some? && r.error.numeral == MatchCure(e.text).value.level
    ensures MatchCure(e.text).Some? ==>
      (r.Ok? <==> ParseQuantity(MatchCure(e.text).value.affected).Ok? && CureLevel(MatchCure(e.text).value.level).Ok?)
    ensures CureCaptures(e.text).None? && MatchZombie(e.text).Some? ==>
      (r.Ok? <==> ParseQuantity(MatchZombie(e.text).value.affected).Ok?)
    ensures CureCaptures(e.text).None? && MatchZombie(e.text).None? && MatchKill(e.text).Some? ==>
      (r.Ok? <==> ParseQuantity(MatchKill(e.text).value.affected).Ok?)
    ensures CureCaptures(e.text).None? && MatchZombie(e.text).None? && MatchKill(e.text).None? && MatchMove(e.text).Some? ==>
      r.Ok?
    ensures MatchCure(e.text).Some? && ParseQuantity(MatchCure(e.text).value.affected).Err? ==>
      r.Err? && Affected(MatchCure(e.text).value.affected) == Err(r.error)
    ensures CureCaptures(e.text).None? && MatchZombie(e.text).Some? && r.Err? ==>
      Affected(MatchZombie(e.text).value.affected) == Err(r.error)
    ensures CureCaptures(e.text).None? && MatchZombie(e.text).None? && MatchKill(e.text).Some? && r.Err? ==>
      Affected(MatchKill(e.text).value.affected) == Err(r.error)
  {
    var text := e.text;
    if CureCaptures(text).Some? then Found(CureEvent(e))
    else if ZombieCaptures(text).Some? then Found(ZombieEvent(e))
    else if KillCaptures(text).Some? then Found(KillEvent(e))
    else if MoveCaptures(text).Some? then Found(MoveEvent(e))
    else Ok(None)
  }

  // Round trips: a sentence rendered from its parts reads back as exactly those parts

  lemma KillRoundTrip(id: U64, ts: U64, target: string, level: int, squad: string, source: string, n: Usize)
    requires AllIn(target, Actor) && AllIn(source, Actor) && AllIn(squad, Letters)
    requires 1 <= level <= 5
    ensures FromEvent(Event(id, ts, KillText(KillMatch(target, DigitChar(level), squad, source, WithThousands(n)))))
      == Ok(Some(ZEvent(id, ts, source, target, Kill(level, n))))
  {
    var m := KillMatch(target, DigitChar(level), squad, source, WithThousands(n));
    QuantityRoundTrip(n);
    KillComplete(m);
    GrammarsExclusive(KillText(m));
  }

  lemma ZombieRoundTrip(id: U64, ts: U64, target: string, grade: string, source: string, n: Usize, converted: bool)
    requires AllIn(target, Actor) && AllIn(source, Actor) && AllIn(grade, Letters)
    ensures FromEvent(Event(id, ts, ZombieText(ZombieMatch(target, grade, source, WithThousands(n), converted))))
      == Ok(Some(ZEvent(id, ts, source, target, Zombie(grade, converted, n))))
  {
    var m := ZombieMatch(target, grade, source, WithThousands(n), converted);
    QuantityRoundTrip(n);
    ZombieComplete(m);
    GrammarsExclusive(ZombieText(m));
  }

  /**
   * A Cure sentence reads back as its level and quantity, whatever follows
   * "infected." (CURE is not anchored at the end), and never as restored:
   * not even when the sentence goes on with the restoring clause.
   */
  lemma CureRoundTrip(id: U64, ts: U64, target: string, level: int, kind: string, source: string, n: Usize, rest: string)
    requires AllIn(target, Actor) && AllIn(source, Actor) && AllIn(kind, Letters)
    requires 1 <= level <= 5
    ensures FromEvent(Event(id, ts, CureText(CureMatch(target, Roman(level), kind, source, WithThousands(n), rest))))
      == Ok(Some(ZEvent(id, ts, source, target, Cure(level, false, n))))
  {
    var m := CureMatch(target, Roman(level), kind, source, WithThousands(n), rest);
    QuantityRoundTrip(n);
    CureLevelRoman(level);
    assert AllIn(Roman(level), Numeral) && 1 <= |Roman(level)| <= 3 by {
      assert Roman(level) == ["I", "II", "III", "IV", "V"][level - 1];
    }
    CureComplete(m);
  }

  lemma MoveRoundTrip(id: U64, ts: U64, nation: string, oldRegion: string, newRegion: string)
    requires AllIn(nation, Actor) && AllIn(oldRegion, Actor) && AllIn(newRegion, Actor)
    ensures FromEvent(Event(id, ts, MoveText(MoveMatch(nation, oldRegion, newRegion))))
      == Ok(Some(ZEvent(id, ts, oldRegion, newRegion, Move(nation))))
  {
    var m := MoveMatch(nation, oldRegion, newRegion);
    MoveComplete(m);
    GrammarsExclusive(MoveText(m));
  }

  // The fatal paths

  /**
   * `[IV]{1,3}` also captures strings that are no Cure level ("VI", "IIV",
   * "VVV", ...): such a sentence is a fatal error, not a coerced level.
   */
  lemma CureBadNumeral(id: U64, ts: U64, m: CureMatch)
    requires CureShaped(m)
    requires ParseQuantity(m.affected).Ok?
    requires CureLevel(m.level).Err?
    ensures FromEvent(Event(id, ts, CureText(m))) == Err(InvalidNumeral(m.level))
  {
    CureComplete(m);
  }

  lemma CureNumeralVI(id: U64, ts: U64)
    ensures FromEvent(Event(id, ts, CureText(CureMatch("a", "VI", "X", "b", "5", "")))) == Err(InvalidNumeral("VI"))
  {
    var m := CureMatch("a", "VI", "X", "b", "5", "");
    assert WithThousands(5) == "5";
    QuantityRoundTrip(5);
    CureBadNumeral(id, ts, m);
  }

  /**
   * Text ending in the restoring clause that does not open with the Cure
   * form matches only the second alternative of CURE, in which the group
   * `from` takes no part, so `c["from"]` panics.
   */
  lemma RestoreTailAlone(id: U64, ts: U64, pre: string)
    requires pre == [] || pre[0] != '@'
    ensures FromEvent(Event(id, ts, pre + RESTORE_TAIL)) == Err(MissingGroup("from"))
  {
    var t := pre + RESTORE_TAIL;
    EndsWithOf(pre, RESTORE_TAIL);
    assert t[0] != '@' by {
      if pre == [] {
        assert t == RESTORE_TAIL;
        RestoreTailStart();
      } else {
        assert t[0] == pre[0];
      }
    }
    assert !("@@" <= t);
  }

  /** A quantity `parse::<usize>` refuses is fatal even though the grammar matched. */
  lemma KillBadQuantity(id: U64, ts: U64, m: KillMatch)
    requires KillShaped(m)
    requires ParseQuantity(m.affected).Err?
    ensures FromEvent(Event(id, ts, KillText(m))) == Err(IntError(ParseQuantity(m.affected).error))
  {
    KillComplete(m);
    GrammarsExclusive(KillText(m));
  }

  /** `[\d,]*` also matches the empty string and a lone comma; both leave nothing to parse. */
  lemma KillEmptyQuantity(id: U64, ts: U64, affected: string)
    requires affected == "" || affected == ","
    ensures FromEvent(Event(id, ts, KillText(KillMatch("a", '1', "", "b", affected)))) == Err(IntError(Empty))
  {
    assert StripCommas(affected) == [];
    KillBadQuantity(id, ts, KillMatch("a", '1', "", "b", affected));
  }

  /** `\d` matches a non-ASCII decimal digit such as ARABIC-INDIC DIGIT THREE, which `parse::<usize>` refuses. */
  lemma KillUnicodeDigit(id: U64, ts: U64)
    ensures FromEvent(Event(id, ts, KillText(KillMatch("a", '1', "", "b", "\U{0663}")))) == Err(IntError(InvalidDigit))
  {
    assert InDigitBlock(0x0663, BMP_DIGIT_ZEROS[0]);
    assert StripCommas("\U{0663}") == "\U{0663}";
    KillBadQuantity(id, ts, KillMatch("a", '1', "", "b", "\U{0663}"));
  }

  /** A quantity past the 64-bit limit is fatal, as an overflow. */
  lemma KillOverflow(id: U64, ts: U64)
    ensures FromEvent(Event(id, ts, KillText(KillMatch("a", '1', "", "b", WithThousands(USIZE_MAX + 1)))))
      == Err(IntError(PosOverflow))
  {
    QuantityOverflow(USIZE_MAX + 1);
    KillBadQuantity(id, ts, KillMatch("a", '1', "", "b", WithThousands(USIZE_MAX + 1)));
  }

  /** Text that does not open with an actor, and does not end with the restoring clause, is dropped without error. */
  lemma NoActorNoEvent(e: Event)
    requires !("@@" <= e.text) && !EndsWith(e.text, RESTORE_TAIL)
    ensures FromEvent(e) == Ok(None)
  {
    assert Head(e.text).None?;
  }

  // Records that differ only in id

  /** The same outcome with the event's id replaced. */
  function WithId(r: Result<ZEvent, ParseError>, id: U64): Result<ZEvent, ParseError> {
    match r
    case Ok(z) => Ok(z.(id := id))
    case Err(x) => Err(x)
  }

  lemma CureIgnoresId(e: Event, id: U64)
    requires CureCaptures(e.text).Some?
    ensures CureEvent(e.(id := id)) == WithId(CureEvent(e), id)
  {
  }

  lemma ZombieIgnoresId(e: Event, id: U64)
    requires CureCaptures(e.text).None? && ZombieCaptures(e.text).Some?
    ensures ZombieEvent(e.(id := id)) == WithId(ZombieEvent(e), id)
  {
  }

  lemma KillIgnoresId(e: Event, id: U64)
    requires CureCaptures(e.text).None? && ZombieCaptures(e.text).None? && KillCaptures(e.text).Some?
    ensures KillEvent(e.(id := id)) == WithId(KillEvent(e), id)
  {
  }

  lemma MoveIgnoresId(e: Event, id: U64)
    requires CureCaptures(e.text).None? && ZombieCaptures(e.text).None? && KillCaptures(e.text).None?
    requires MoveCaptures(e.text).Some?
    ensures MoveEvent(e.(id := id)) == WithId(MoveEvent(e), id)
  {
  }

  /**
   * Two records with the same text and timestamp parse alike: the same error,
   * both nothing, or events that are equal and compare `Equal` although
   * their ids differ.
   */
  lemma SameTextSameEvent(e1: Event, e2: Event)
    requires e1.text == e2.text && e1.timestamp == e2.timestamp
    ensures FromEvent(e1).Err? <==> FromEvent(e2).Err?
    ensures FromEvent(e1).Err? ==> FromEvent(e1) == FromEvent(e2)
    ensures FromEvent(e1) == Ok(None) <==> FromEvent(e2) == Ok(None)
    ensures FromEvent(e1).Ok? && FromEvent(e1).value.Some? ==>
      && FromEvent(e2).Ok? && FromEvent(e2).value.Some?
      && SameEvent(FromEvent(e1).value.value, FromEvent(e2).value.value)
      && CompareZEvent(FromEvent(e1).value.value, FromEvent(e2).value.value) == Equal
  {
    var t := e1.text;
    assert e2 == e1.(id := e2.id);
    if CureCaptures(t).Some? {
      CureIgnoresId(e1, e2.id);
    } else if ZombieCaptures(t).Some? {
      ZombieIgnoresId(e1, e2.id);
    } else if KillCaptures(t).Some? {
      KillIgnoresId(e1, e2.id);
    } else if MoveCaptures(t).Some? {
      MoveIgnoresId(e1, e2.id);
    }
    var r1 := FromEvent(e1);
    if r1.Ok? && r1.value.Some? {
      IdIgnored(r1.value.value, e2.id);
    }
  }
}
