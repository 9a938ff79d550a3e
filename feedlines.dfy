/**
 * Two concrete feed lines, a Kill and a Move, spelled out character by
 * character one segment at a time, and what `from_event` makes of them.
 */
module FeedLines {
  import opened Results
  import opened Quantity
  import opened Events
  import opened Grammars
  import opened Parser

  // The Kill sentence, one segment at a time

  lemma KillPrefix1()
    ensures "@@" + "alpha" == "@@alpha"
  {
  }

  lemma KillCleansedParts()
    ensures CLEANSED == "@@ was cleansed" + " by a Level "
  {
  }

  lemma KillPrefix2()
    ensures "@@alpha" + "@@ was cleansed" == "@@alpha@@ was cleansed"
  {
  }

  lemma KillPrefix3()
    ensures "@@alpha@@ was cleansed" + " by a Level " == "@@alpha@@ was cleansed by a Level "
  {
  }

  lemma KillCleansedStep()
    ensures "@@alpha" + CLEANSED == "@@alpha@@ was cleansed by a Level "
  {
    KillCleansedParts();
    KillPrefix2();
    KillPrefix3();
  }

  lemma KillPrefix4()
    ensures "@@alpha@@ was cleansed by a Level " + ['3'] == "@@alpha@@ was cleansed by a Level 3"
  {
  }

  lemma KillPrefix5()
    ensures "@@alpha@@ was cleansed by a Level 3" + " " == "@@alpha@@ was cleansed by a Level 3 "
  {
  }

  lemma KillPrefix6()
    ensures "@@alpha@@ was cleansed by a Level 3 " + "Grim" == "@@alpha@@ was cleansed by a Level 3 Grim"
  {
  }

  lemma KillSquadParts()
    ensures KILL_SQUAD == " Tactical Zombie" + " Elimination Squad" + " from @@"
  {
  }

  lemma KillPrefix7()
    ensures "@@alpha@@ was cleansed by a Level 3 Grim" + " Tactical Zombie" == "@@alpha@@ was cleansed by a Level 3 Grim Tactical Zombie"
  {
  }

  lemma KillPrefix8()
    ensures "@@alpha@@ was cleansed by a Level 3 Grim Tactical Zombie" + " Elimination Squad" == "@@alpha@@ was cleansed by a Level 3 Grim Tactical Zombie Elimination Squad"
  {
  }

  lemma KillPrefix9()
    ensures "@@alpha@@ was cleansed by a Level 3 Grim Tactical Zombie Elimination Squad" + " from @@" == "@@alpha@@ was cleansed by a Level 3 Grim Tactical Zombie Elimination Squad from @@"
  {
  }

  lemma KillSquadStep()
    ensures "@@alpha@@ was cleansed by a Level 3 Grim" + KILL_SQUAD == "@@alpha@@ was cleansed by a Level 3 Grim Tactical Zombie Elimination Squad from @@"
  {
    KillSquadParts();
    KillPrefix7();
    KillPrefix8();
    KillPrefix9();
  }

  lemma KillPrefix10()
    ensures "@@alpha@@ was cleansed by a Level 3 Grim Tactical Zombie Elimination Squad from @@" + "beta" == "@@alpha@@ was cleansed by a Level 3 Grim Tactical Zombie Elimination Squad from @@beta"
  {
  }

  lemma KillPrefix11()
    ensures "@@alpha@@ was cleansed by a Level 3 Grim Tactical Zombie Elimination Squad from @@beta" + KILL_COUNT == "@@alpha@@ was cleansed by a Level 3 Grim Tactical Zombie Elimination Squad from @@beta@@, killing "
  {
  }

  lemma KillPrefix12()
    ensures "@@alpha@@ was cleansed by a Level 3 Grim Tactical Zombie Elimination Squad from @@beta@@, killing " + "1,250" == "@@alpha@@ was cleansed by a Level 3 Grim Tactical Zombie Elimination Squad from @@beta@@, killing 1,250"
  {
  }

  lemma KillEndParts()
    ensures KILL_END == " million" + " infected."
  {
  }

  lemma KillPrefix13()
    ensures "@@alpha@@ was cleansed by a Level 3 Grim Tactical Zombie Elimination Squad from @@beta@@, killing 1,250" + " million" == "@@alpha@@ was cleansed by a Level 3 Grim Tactical Zombie Elimination Squad from @@beta@@, killing 1,250 million"
  {
  }

  lemma KillPrefix14()
    ensures "@@alpha@@ was cleansed by a Level 3 Grim Tactical Zombie Elimination Squad from @@beta@@, killing 1,250 million" + " infected." == "@@alpha@@ was cleansed by a Level 3 Grim Tactical Zombie Elimination Squad from @@beta@@, killing 1,250 million infected."
  {
  }

  lemma KillEndStep()
    ensures "@@alpha@@ was cleansed by a Level 3 Grim Tactical Zombie Elimination Squad from @@beta@@, killing 1,250" + KILL_END == "@@alpha@@ was cleansed by a Level 3 Grim Tactical Zombie Elimination Squad from @@beta@@, killing 1,250 million infected."
  {
    KillEndParts();
    KillPrefix13();
    KillPrefix14();
  }

  /** The Kill sentence with attacker `beta`, target `alpha`, a level 3 squad and 1,250 killed. */
  lemma KillSentence()
    ensures KillText(KillMatch("alpha", '3', "Grim", "beta", "1,250")) == "@@alpha@@ was cleansed by a Level 3 Grim Tactical Zombie Elimination Squad from @@beta@@, killing 1,250 million infected."
  {
    KillTextFlat(KillMatch("alpha", '3', "Grim", "beta", "1,250"));
    KillPrefix1();
    KillCleansedStep();
    KillPrefix4();
    KillPrefix5();
    KillPrefix6();
    KillSquadStep();
    KillPrefix10();
    KillPrefix11();
    KillPrefix12();
    KillEndStep();
  }

  // The Move sentence, one segment at a time

  lemma MovePrefix1()
    ensures "@@" + "nova" == "@@nova"
  {
  }

  lemma MovePrefix2()
    ensures "@@nova" + RELOCATED == "@@nova@@ relocated from %%"
  {
  }

  lemma MovePrefix3()
    ensures "@@nova@@ relocated from %%" + "old-region" == "@@nova@@ relocated from %%old-region"
  {
  }

  lemma MovePrefix4()
    ensures "@@nova@@ relocated from %%old-region" + MOVE_TO == "@@nova@@ relocated from %%old-region%% to %%"
  {
  }

  lemma MovePrefix5()
    ensures "@@nova@@ relocated from %%old-region%% to %%" + "new-region" == "@@nova@@ relocated from %%old-region%% to %%new-region"
  {
  }

  lemma MovePrefix6()
    ensures "@@nova@@ relocated from %%old-region%% to %%new-region" + MOVE_END == "@@nova@@ relocated from %%old-region%% to %%new-region%%."
  {
  }

  /** The Move sentence of nation `nova` from `old-region` to `new-region`. */
  lemma MoveSentence()
    ensures MoveText(MoveMatch("nova", "old-region", "new-region")) == "@@nova@@ relocated from %%old-region%% to %%new-region%%."
  {
    MoveTextFlat(MoveMatch("nova", "old-region", "new-region"));
    MovePrefix1();
    MovePrefix2();
    MovePrefix3();
    MovePrefix4();
    MovePrefix5();
    MovePrefix6();
  }

  lemma ThousandsOf1250()
    ensures WithThousands(1250) == "1,250"
  {
    assert Decimal(1) == "1";
    assert Group3(250) == "250";
  }

  /** The Kill sentence above reads as a Kill of level 3 from `beta` on `alpha`, the quantity "1,250" as 1250. */
  lemma KillExample(id: U64, ts: U64)
    ensures FromEvent(Event(id, ts, KillText(KillMatch("alpha", '3', "Grim", "beta", "1,250"))))
      == Ok(Some(ZEvent(id, ts, "beta", "alpha", Kill(3, 1250))))
  {
    ThousandsOf1250();
    KillRoundTrip(id, ts, "alpha", 3, "Grim", "beta", 1250);
  }

  /** The Move sentence above reads as a Move of `nova` from `old-region` to `new-region`. */
  lemma MoveExample(id: U64, ts: U64)
    ensures FromEvent(Event(id, ts, MoveText(MoveMatch("nova", "old-region", "new-region"))))
      == Ok(Some(ZEvent(id, ts, "old-region", "new-region", Move("nova"))))
  {
    MoveRoundTrip(id, ts, "nova", "old-region", "new-region");
  }
}
