/**
 * The four happening-line grammars CURE, ZOMBIE, KILL and MOVE, each as a
 * hand-written matcher. Every variable segment of a grammar is followed by a
 * literal whose first character lies outside the segment's class, so a match
 * is unique: each matcher is proved to accept a text exactly when the text is
 * the rendering of the segments it returns.
 */
module Grammars {
  import opened Results
  import opened Lexical

  /** The named groups of a regex match that took part in it, by name. */
  type Captures = map<string, string>

  /** The group `name` took part in the match and captured `value`. */
  predicate Holds(c: Captures, name: string, value: string) {
    name in c && c[name] == value
  }

  // Literal segments of the grammars

  const STRUCK := "@@ was struck by a Mk "
  const CURE_KIND := " ("
  const CURE_SOURCE := ") Cure Missile from @@"
  const CURE_COUNT := "@@, curing "
  const CURE_END := " million infected."
  /** The second top-level alternative of CURE: `(p<restore>` is a plain group, not a named one. */
  const RESTORE_TAIL := " " + RESTORE_GROUP
  const RESTORE_GROUP := "p<restore>and restoring to a zombie researcher!"

  const RAVAGED := "@@ was ravaged by a Zombie "
  const ZOMBIE_SOURCE := " Horde from @@"
  const ZOMBIE_COUNT := "@@, infecting "
  const ZOMBIE_END := " million survivors"
  const CONVERT_PHRASE := " and converting to a zombie exporter! Oh no!"

  const CLEANSED := "@@ was cleansed by a Level "
  const KILL_SQUAD := " Tactical Zombie Elimination Squad from @@"
  const KILL_COUNT := "@@, killing "
  const KILL_END := " million infected."

  const RELOCATED := "@@ relocated from %%"
  const MOVE_TO := "%% to %%"
  const MOVE_END := "%%."

  /** The characters the literals of CURE start with, each outside the class of the segment before it. */
  lemma CureLiterals()
    ensures STRUCK[0] == '@' && CURE_KIND[0] == ' ' && CURE_SOURCE[0] == ')'
    ensures CURE_COUNT[0] == '@' && CURE_END[0] == ' '
  {
  }

  lemma ZombieLiterals()
    ensures RAVAGED[0] == '@' && ZOMBIE_SOURCE[0] == ' ' && ZOMBIE_COUNT[0] == '@' && ZOMBIE_END[0] == ' '
  {
  }

  lemma KillLiterals()
    ensures CLEANSED[0] == '@' && KILL_SQUAD[0] == ' ' && KILL_COUNT[0] == '@' && KILL_END[0] == ' '
  {
  }

  /** `^@@(actor)`: the opening actor of every grammar and the text after it. */
  function Head(t: string): (r: Option<(string, string)>)
    ensures r.Some? <==> "@@" <= t
    ensures r.Some? ==> t == "@@" + (r.value.0 + r.value.1)
    ensures r.Some? ==> AllIn(r.value.0, Actor) && StopsRun(r.value.1, Actor)
  {
    var s :- Lit(t, "@@");
    Some(Span(s, Actor))
  }

  /**
   * `(?P<from>[a-z0-9_\-]*)` + count + `(?P<affected>[\d,]*)` + end: the
   * source actor and the quantity that close CURE, ZOMBIE and KILL, and the
   * text after them.
   */
  datatype Tally = Tally(from: string, affected: string, after: string)

  function TallyText(count: string, end: string, y: Tally): string {
    y.from + (count + (y.affected + (end + y.after)))
  }

  function MatchTally(s: string, count: string, end: string): (r: Option<Tally>)
    ensures r.Some? ==> AllIn(r.value.from, Actor) && AllIn(r.value.affected, Quantity)
    ensures r.Some? ==> TallyText(count, end, r.value) == s
  {
    var (from, s1) := Span(s, Actor);
    var s2 :- Lit(s1, count);
    var (affected, s3) := Span(s2, Quantity);
    var after :- Lit(s3, end);
    Some(Tally(from, affected, after))
  }

  /** A literal that starts outside class `k` ends any run of `k` before it. */
  lemma LitStopsRun(lit: string, rest: string, k: CharClass)
    requires lit != [] && !InClass(lit[0], k)
    ensures StopsRun(lit + rest, k)
  {
    assert (lit + rest)[0] == lit[0];
  }

  lemma TallyComplete(count: string, end: string, y: Tally)
    requires AllIn(y.from, Actor) && AllIn(y.affected, Quantity)
    requires count != [] && !InClass(count[0], Actor)
    requires end != [] && !InClass(end[0], Quantity)
    ensures MatchTally(TallyText(count, end, y), count, end) == Some(y)
  {
    var s3 := end + y.after;
    var s2 := y.affected + s3;
    var s1 := count + s2;
    LitStopsRun(count, s2, Actor);
    SpanOf(y.from, s1, Actor);
    LitOf(count, s2);
    LitStopsRun(end, y.after, Quantity);
    SpanOf(y.affected, s3, Quantity);
    LitOf(end, y.after);
  }

  // CURE, first alternative:
  // ^@@(?P<to>[a-z0-9_\-]*)@@ was struck by a Mk (?P<level>[IV]{1,3}) \([a-zA-Z]*\)
  // Cure Missile from @@(?P<from>[a-z0-9_\-]*)@@, curing (?P<affected>[\d,]*) million infected(\.)
  // It is anchored only at the start, so any `rest` may follow.

  datatype CureMatch = CureMatch(to: string, level: string, kind: string, from: string, affected: string, rest: string)

  predicate CureShaped(m: CureMatch) {
    && AllIn(m.to, Actor)
    && 1 <= |m.level| <= 3 && AllIn(m.level, Numeral)
    && AllIn(m.kind, Letters)
    && AllIn(m.from, Actor)
    && AllIn(m.affected, Quantity)
  }

  function CureText(m: CureMatch): string {
    "@@" + (m.to + (STRUCK + (m.level + (CURE_KIND + (m.kind + (CURE_SOURCE +
      (m.from + (CURE_COUNT + (m.affected + (CURE_END + m.rest))))))))))
  }

  function MatchCure(t: string): (r: Option<CureMatch>)
    ensures r.Some? ==> CureShaped(r.value) && CureText(r.value) == t
    ensures r.Some? ==> Head(t).Some? && STRUCK <= Head(t).value.1
  {
    var h :- Head(t);
    var s1 :- Lit(h.1, STRUCK);
    var (level, s2) := Span(s1, Numeral);
    if !(1 <= |level| <= 3) then None
    else
      var s3 :- Lit(s2, CURE_KIND);
      var (kind, s4) := Span(s3, Letters);
      var s5 :- Lit(s4, CURE_SOURCE);
      var y :- MatchTally(s5, CURE_COUNT, CURE_END);
      Some(CureMatch(h.0, level, kind, y.from, y.affected, y.after))
  }

  lemma CureComplete(m: CureMatch)
    requires CureShaped(m)
    ensures MatchCure(CureText(m)) == Some(m)
  {
    var y := Tally(m.from, m.affected, m.rest);
    var s5 := TallyText(CURE_COUNT, CURE_END, y);
    var s4 := CURE_SOURCE + s5;
    var s3 := m.kind + s4;
    var s2 := CURE_KIND + s3;
    var s1 := m.level + s2;
    var s0 := STRUCK + s1;
    var h := m.to + s0;
    CureLiterals();
    LitOf("@@", h);
    LitStopsRun(STRUCK, s1, Actor);
    SpanOf(m.to, s0, Actor);
    LitOf(STRUCK, s1);
    LitStopsRun(CURE_KIND, s3, Numeral);
    SpanOf(m.level, s2, Numeral);
    LitOf(CURE_KIND, s3);
    LitStopsRun(CURE_SOURCE, s5, Letters);
    SpanOf(m.kind, s4, Letters);
    LitOf(CURE_SOURCE, s5);
    TallyComplete(CURE_COUNT, CURE_END, y);
  }

  /** The regex crate's `CURE.captures(text)`, as the named groups that took part. */
  function CureCaptures(t: string): (r: Option<Captures>)
    ensures r.Some? <==> MatchCure(t).Some? || EndsWith(t, RESTORE_TAIL)
    ensures r.Some? ==> "restore" !in r.value
    ensures r.Some? && "from" !in r.value <==> MatchCure(t).None? && EndsWith(t, RESTORE_TAIL)
    ensures MatchCure(t).Some? ==> (r.Some? && Holds(r.value, "to", MatchCure(t).value.to)
      && Holds(r.value, "level", MatchCure(t).value.level) && Holds(r.value, "from", MatchCure(t).value.from)
      && Holds(r.value, "affected", MatchCure(t).value.affected))
  {
    match MatchCure(t)
    case Some(m) => Some(map["to" := m.to, "level" := m.level, "from" := m.from, "affected" := m.affected])
    case None => if EndsWith(t, RESTORE_TAIL) then Some(map[]) else None
  }

  // ZOMBIE:
  // ^@@(?P<to>[a-z0-9_\-]*)@@ was ravaged by a Zombie (?P<level>[a-zA-Z]*) Horde from
  // @@(?P<from>[a-z0-9_\-]*)@@, infecting (?P<affected>[\d,]*) million survivors
  // ((\.)|(?P<convert> and converting to a zombie exporter! Oh no!))$

  datatype ZombieMatch = ZombieMatch(to: string, level: string, from: string, affected: string, converted: bool)

  predicate ZombieShaped(m: ZombieMatch) {
    AllIn(m.to, Actor) && AllIn(m.level, Letters) && AllIn(m.from, Actor) && AllIn(m.affected, Quantity)
  }

  function ZombieEnding(converted: bool): string {
    if converted then CONVERT_PHRASE else "."
  }

  function ZombieText(m: ZombieMatch): string {
    "@@" + (m.to + (RAVAGED + (m.level + (ZOMBIE_SOURCE + (m.from + (ZOMBIE_COUNT +
      (m.affected + (ZOMBIE_END + ZombieEnding(m.converted)))))))))
  }

  function MatchZombie(t: string): (r: Option<ZombieMatch>)
    ensures r.Some? ==> ZombieShaped(r.value) && ZombieText(r.value) == t
    ensures r.Some? ==> Head(t).Some? && RAVAGED <= Head(t).value.1
  {
    var h :- Head(t);
    var s1 :- Lit(h.1, RAVAGED);
    var (level, s2) := Span(s1, Letters);
    var s3 :- Lit(s2, ZOMBIE_SOURCE);
    var y :- MatchTally(s3, ZOMBIE_COUNT, ZOMBIE_END);
    if y.after == "." then Some(ZombieMatch(h.0, level, y.from, y.affected, false))
    else if y.after == CONVERT_PHRASE then Some(ZombieMatch(h.0, level, y.from, y.affected, true))
    else None
  }

  lemma ZombieComplete(m: ZombieMatch)
    requires ZombieShaped(m)
    ensures MatchZombie(ZombieText(m)) == Some(m)
  {
    var y := Tally(m.from, m.affected, ZombieEnding(m.converted));
    var s3 := TallyText(ZOMBIE_COUNT, ZOMBIE_END, y);
    var s2 := ZOMBIE_SOURCE + s3;
    var s1 := m.level + s2;
    var s0 := RAVAGED + s1;
    var h := m.to + s0;
    ZombieLiterals();
    LitOf("@@", h);
    LitStopsRun(RAVAGED, s1, Actor);
    SpanOf(m.to, s0, Actor);
    LitOf(RAVAGED, s1);
    LitStopsRun(ZOMBIE_SOURCE, s3, Letters);
    SpanOf(m.level, s2, Letters);
    LitOf(ZOMBIE_SOURCE, s3);
    TallyComplete(ZOMBIE_COUNT, ZOMBIE_END, y);
  }

  /** `ZOMBIE.captures(text)`; the group `convert` takes part exactly on the converting ending. */
  function ZombieCaptures(t: string): (r: Option<Captures>)
    ensures r.Some? <==> MatchZombie(t).Some?
    ensures r.Some? ==> ("convert" in r.value <==> MatchZombie(t).value.converted)
    ensures r.Some? ==> (Holds(r.value, "to", MatchZombie(t).value.to)
      && Holds(r.value, "level", MatchZombie(t).value.level) && Holds(r.value, "from", MatchZombie(t).value.from)
      && Holds(r.value, "affected", MatchZombie(t).value.affected))
  {
    match MatchZombie(t)
    case Some(m) =>
      var c := map["to" := m.to, "level" := m.level, "from" := m.from, "affected" := m.affected];
      Some(if m.converted then c["convert" := CONVERT_PHRASE] else c)
    case None => None
  }

  // KILL:
  // ^@@(?P<to>[a-z0-9_\-]*)@@ was cleansed by a Level (?P<level>[1-5]) [a-zA-Z]* Tactical
  // Zombie Elimination Squad from @@(?P<from>[a-z0-9_\-]*)@@, killing (?P<affected>[\d,]*) million infected\.$

  datatype KillMatch = KillMatch(to: string, level: char, squad: string, from: string, affected: string)

  predicate KillShaped(m: KillMatch) {
    && AllIn(m.to, Actor)
    && '1' <= m.level <= '5'
    && AllIn(m.squad, Letters)
    && AllIn(m.from, Actor)
    && AllIn(m.affected, Quantity)
  }

  function KillText(m: KillMatch): string {
    "@@" + (m.to + (CLEANSED + ([m.level] + (" " + (m.squad + (KILL_SQUAD +
      (m.from + (KILL_COUNT + (m.affected + KILL_END)))))))))
  }

  /** `[1-5]`: the single digit of a Kill level and the text after it. */
  function KillLevel(s: string): (r: Option<(char, string)>)
    ensures r.Some? <==> s != [] && '1' <= s[0] <= '5'
    ensures r.Some? ==> '1' <= r.value.0 <= '5' && s == [r.value.0] + r.value.1
  {
    if s != [] && '1' <= s[0] <= '5' then
      assert s == [s[0]] + s[1..];
      Some((s[0], s[1..]))
    else None
  }

  lemma KillLevelOf(c: char, rest: string)
    requires '1' <= c <= '5'
    ensures KillLevel([c] + rest) == Some((c, rest))
  {
    assert ([c] + rest)[1..] == rest;
  }

  function MatchKill(t: string): (r: Option<KillMatch>)
    ensures r.Some? ==> KillShaped(r.value) && KillText(r.value) == t
    ensures r.Some? ==> Head(t).Some? && CLEANSED <= Head(t).value.1
  {
    var h :- Head(t);
    var s1 :- Lit(h.1, CLEANSED);
    var d :- KillLevel(s1);
    var s2 :- Lit(d.1, " ");
    var (squad, s3) := Span(s2, Letters);
    var s4 :- Lit(s3, KILL_SQUAD);
    var y :- MatchTally(s4, KILL_COUNT, KILL_END);
    if y.after == [] then
      assert KILL_END + y.after == KILL_END;
      Some(KillMatch(h.0, d.0, squad, y.from, y.affected))
    else None
  }

  lemma KillComplete(m: KillMatch)
    requires KillShaped(m)
    ensures MatchKill(KillText(m)) == Some(m)
  {
    var y := Tally(m.from, m.affected, []);
    assert KILL_END + y.after == KILL_END;
    var s4 := TallyText(KILL_COUNT, KILL_END, y);
    var s3 := KILL_SQUAD + s4;
    var s2 := m.squad + s3;
    var s1 := [m.level] + (" " + s2);
    var s0 := CLEANSED + s1;
    var h := m.to + s0;
    KillLiterals();
    LitOf("@@", h);
    LitStopsRun(CLEANSED, s1, Actor);
    SpanOf(m.to, s0, Actor);
    LitOf(CLEANSED, s1);
    KillLevelOf(m.level, " " + s2);
    LitOf(" ", s2);
    LitStopsRun(KILL_SQUAD, s4, Letters);
    SpanOf(m.squad, s3, Letters);
    LitOf(KILL_SQUAD, s4);
    TallyComplete(KILL_COUNT, KILL_END, y);
  }

  /** The sentence read left to right. */
  lemma KillTextFlat(m: KillMatch)
    ensures KillText(m) == "@@" + m.to + CLEANSED + [m.level] + " " + m.squad + KILL_SQUAD + m.from + KILL_COUNT + m.affected + KILL_END
  {
    Assoc("@@", m.to, (CLEANSED + ([m.level] + (" " + (m.squad + (KILL_SQUAD + (m.from + (KILL_COUNT + (m.affected + KILL_END)))))))));
    Assoc("@@" + m.to, CLEANSED, ([m.level] + (" " + (m.squad + (KILL_SQUAD + (m.from + (KILL_COUNT + (m.affected + KILL_END))))))));
    Assoc("@@" + m.to + CLEANSED, [m.level], (" " + (m.squad + (KILL_SQUAD + (m.from + (KILL_COUNT + (m.affected + KILL_END)))))));
    Assoc("@@" + m.to + CLEANSED + [m.level], " ", (m.squad + (KILL_SQUAD + (m.from + (KILL_COUNT + (m.affected + KILL_END))))));
    Assoc("@@" + m.to + CLEANSED + [m.level] + " ", m.squad, (KILL_SQUAD + (m.from + (KILL_COUNT + (m.affected + KILL_END)))));
    Assoc("@@" + m.to + CLEANSED + [m.level] + " " + m.squad, KILL_SQUAD, (m.from + (KILL_COUNT + (m.affected + KILL_END))));
    Assoc("@@" + m.to + CLEANSED + [m.level] + " " + m.squad + KILL_SQUAD, m.from, (KILL_COUNT + (m.affected + KILL_END)));
    Assoc("@@" + m.to + CLEANSED + [m.level] + " " + m.squad + KILL_SQUAD + m.from, KILL_COUNT, (m.affected + KILL_END));
    Assoc("@@" + m.to + CLEANSED + [m.level] + " " + m.squad + KILL_SQUAD + m.from + KILL_COUNT, m.affected, KILL_END);
  }

  /** `KILL.captures(text)` */
  function KillCaptures(t: string): (r: Option<Captures>)
    ensures r.Some? <==> MatchKill(t).Some?
    ensures r.Some? ==> (Holds(r.value, "to", MatchKill(t).value.to)
      && Holds(r.value, "level", [MatchKill(t).value.level]) && Holds(r.value, "from", MatchKill(t).value.from)
      && Holds(r.value, "affected", MatchKill(t).value.affected))
  {
    match MatchKill(t)
    case Some(m) => Some(map["to" := m.to, "level" := [m.level], "from" := m.from, "affected" := m.affected])
    case None => None
  }

  // MOVE:
  // ^@@(?P<nation>[a-z0-9_\-]*)@@ relocated from %%(?P<from>[a-z0-9_\-]*)%% to %%(?P<to>[a-z0-9_\-]*)%%\.$

  datatype MoveMatch = MoveMatch(nation: string, from: string, to: string)

  predicate MoveShaped(m: MoveMatch) {
    AllIn(m.nation, Actor) && AllIn(m.from, Actor) && AllIn(m.to, Actor)
  }

  function MoveText(m: MoveMatch): string {
    "@@" + (m.nation + (RELOCATED + (m.from + (MOVE_TO + (m.to + MOVE_END)))))
  }

  function MatchMove(t: string): (r: Option<MoveMatch>)
    ensures r.Some? ==> MoveShaped(r.value) && MoveText(r.value) == t
    ensures r.Some? ==> Head(t).Some? && RELOCATED <= Head(t).value.1
  {
    var h :- Head(t);
    var s1 :- Lit(h.1, RELOCATED);
    var (from, s2) := Span(s1, Actor);
    var s3 :- Lit(s2, MOVE_TO);
    var (to, s4) := Span(s3, Actor);
    if s4 == MOVE_END then Some(MoveMatch(h.0, from, to)) else None
  }

  lemma MoveComplete(m: MoveMatch)
    requires MoveShaped(m)
    ensures MatchMove(MoveText(m)) == Some(m)
  {
    var s4 := MOVE_END;
    var s3 := m.to + s4;
    var s2 := MOVE_TO + s3;
    var s1 := m.from + s2;
    var s0 := RELOCATED + s1;
    var h := m.nation + s0;
    LitOf("@@", h);
    SpanOf(m.nation, s0, Actor);
    LitOf(RELOCATED, s1);
    SpanOf(m.from, s2, Actor);
    LitOf(MOVE_TO, s3);
    SpanOf(m.to, s4, Actor);
  }

  /** The sentence read left to right. */
  lemma MoveTextFlat(m: MoveMatch)
    ensures MoveText(m) == "@@" + m.nation + RELOCATED + m.from + MOVE_TO + m.to + MOVE_END
  {
    Assoc("@@", m.nation, (RELOCATED + (m.from + (MOVE_TO + (m.to + MOVE_END)))));
    Assoc("@@" + m.nation, RELOCATED, (m.from + (MOVE_TO + (m.to + MOVE_END))));
    Assoc("@@" + m.nation + RELOCATED, m.from, (MOVE_TO + (m.to + MOVE_END)));
    Assoc("@@" + m.nation + RELOCATED + m.from, MOVE_TO, (m.to + MOVE_END));
    Assoc("@@" + m.nation + RELOCATED + m.from + MOVE_TO, m.to, MOVE_END);
  }

  /** `MOVE.captures(text)` */
  function MoveCaptures(t: string): (r: Option<Captures>)
    ensures r.Some? <==> MatchMove(t).Some?
    ensures r.Some? ==> (Holds(r.value, "nation", MatchMove(t).value.nation)
      && Holds(r.value, "from", MatchMove(t).value.from) && Holds(r.value, "to", MatchMove(t).value.to))
  {
    match MatchMove(t)
    case Some(m) => Some(map["nation" := m.nation, "from" := m.from, "to" := m.to])
    case None => None
  }

  lemma RestoreTailStart()
    ensures RESTORE_TAIL[0] == ' '
  {
    assert (" " + RESTORE_GROUP)[0] == " "[0];
  }

  // The grammars exclude one another

  lemma EndsWithWithin(pre: string, s: string, suffix: string)
    requires EndsWith(s, suffix)
    ensures EndsWith(pre + s, suffix)
  {
    assert (pre + s)[|pre + s| - |suffix|..] == s[|s| - |suffix|..];
  }

  lemma ZombieTextEnding(m: ZombieMatch)
    ensures EndsWith(ZombieText(m), ZombieEnding(m.converted))
  {
    var ending := ZombieEnding(m.converted);
    var s6 := ZOMBIE_END + ending;
    var s5 := m.affected + s6;
    var s4 := ZOMBIE_COUNT + s5;
    var s3 := m.from + s4;
    var s2 := ZOMBIE_SOURCE + s3;
    var s1 := m.level + s2;
    var s0 := RAVAGED + s1;
    var h := m.to + s0;
    EndsWithOf(ZOMBIE_END, ending);
    EndsWithWithin(m.affected, s6, ending);
    EndsWithWithin(ZOMBIE_COUNT, s5, ending);
    EndsWithWithin(m.from, s4, ending);
    EndsWithWithin(ZOMBIE_SOURCE, s3, ending);
    EndsWithWithin(m.level, s2, ending);
    EndsWithWithin(RAVAGED, s1, ending);
    EndsWithWithin(m.to, s0, ending);
    EndsWithWithin("@@", h, ending);
  }

  lemma KillTextEnding(m: KillMatch)
    ensures EndsWith(KillText(m), KILL_END)
  {
    var s6 := m.affected + KILL_END;
    var s5 := KILL_COUNT + s6;
    var s4 := m.from + s5;
    var s3 := KILL_SQUAD + s4;
    var s2 := m.squad + s3;
    var s1 := [m.level] + (" " + s2);
    var s0 := CLEANSED + s1;
    var h := m.to + s0;
    EndsWithOf(m.affected, KILL_END);
    EndsWithWithin(KILL_COUNT, s6, KILL_END);
    EndsWithWithin(m.from, s5, KILL_END);
    EndsWithWithin(KILL_SQUAD, s4, KILL_END);
    EndsWithWithin(m.squad, s3, KILL_END);
    EndsWithWithin(" ", s2, KILL_END);
    EndsWithWithin([m.level], " " + s2, KILL_END);
    EndsWithWithin(CLEANSED, s1, KILL_END);
    EndsWithWithin(m.to, s0, KILL_END);
    EndsWithWithin("@@", h, KILL_END);
  }

  lemma MoveTextEnding(m: MoveMatch)
    ensures EndsWith(MoveText(m), MOVE_END)
  {
    var s3 := m.to + MOVE_END;
    var s2 := MOVE_TO + s3;
    var s1 := m.from + s2;
    var s0 := RELOCATED + s1;
    var h := m.nation + s0;
    EndsWithOf(m.to, MOVE_END);
    EndsWithWithin(MOVE_TO, s3, MOVE_END);
    EndsWithWithin(m.from, s2, MOVE_END);
    EndsWithWithin(RELOCATED, s1, MOVE_END);
    EndsWithWithin(m.nation, s0, MOVE_END);
    EndsWithWithin("@@", h, MOVE_END);
  }

  /** The last two characters of the second alternative of CURE. */
  lemma RestoreTailEnd()
    ensures |RESTORE_TAIL| >= 2 && RESTORE_TAIL[|RESTORE_TAIL| - 1] == '!' && RESTORE_TAIL[|RESTORE_TAIL| - 2] == 'r'
  {
  }

  lemma ZombieNotRestore(t: string)
    ensures MatchZombie(t).Some? ==> !EndsWith(t, RESTORE_TAIL)
  {
    if MatchZombie(t).Some? {
      var m := MatchZombie(t).value;
      RestoreTailEnd();
      ZombieTextEnding(m);
      EndingsClash(t, ZombieEnding(m.converted), RESTORE_TAIL, if m.converted then 1 else 0);
    }
  }

  lemma KillNotRestore(t: string)
    ensures MatchKill(t).Some? ==> !EndsWith(t, RESTORE_TAIL)
  {
    if MatchKill(t).Some? {
      RestoreTailEnd();
      KillTextEnding(MatchKill(t).value);
      EndingsClash(t, KILL_END, RESTORE_TAIL, 0);
    }
  }

  lemma MoveNotRestore(t: string)
    ensures MatchMove(t).Some? ==> !EndsWith(t, RESTORE_TAIL)
  {
    if MatchMove(t).Some? {
      RestoreTailEnd();
      MoveTextEnding(MatchMove(t).value);
      EndingsClash(t, MOVE_END, RESTORE_TAIL, 0);
    }
  }

  /**
   * The phrases after the first actor ("was struck by", "was ravaged by",
   * "was cleansed by", " relocated from") and the endings keep the grammars
   * apart: no text is matched by two of CURE, ZOMBIE, KILL and MOVE.
   */
  lemma GrammarsExclusive(t: string)
    ensures CureCaptures(t).Some? ==> MatchZombie(t).None? && MatchKill(t).None? && MatchMove(t).None?
    ensures MatchZombie(t).Some? ==> MatchKill(t).None? && MatchMove(t).None?
    ensures MatchKill(t).Some? ==> MatchMove(t).None?
  {
    if Head(t).Some? {
      var s := Head(t).value.1;
      LitsClash(s, STRUCK, RAVAGED, 7);
      LitsClash(s, STRUCK, CLEANSED, 7);
      LitsClash(s, STRUCK, RELOCATED, 3);
      LitsClash(s, RAVAGED, CLEANSED, 7);
      LitsClash(s, RAVAGED, RELOCATED, 3);
      LitsClash(s, CLEANSED, RELOCATED, 3);
    }
    ZombieNotRestore(t);
    KillNotRestore(t);
    MoveNotRestore(t);
  }
}
