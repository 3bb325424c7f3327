/** What the bot shows, as structure rather than HTML: the voting keyboard,
    the results, the voters list and the full statistics. Every rendering
    lists the three answers in the order of Options. */
module Views {
  import opened Ballot
  import opened Tally

  /** At most this many names per answer in the full statistics. */
  const MaxListed: nat := 10

  function Min(a: int, b: int): int {
    if a <= b then a else b
  }

  // ---------------------------------------------------------------- keyboard

  /** A vote button labelled with its answer's count and percentage, or the
      button that opens the full statistics. */
  datatype Button = VoteButton(choice: Choice, count: nat, percent: real) | StatsButton

  function VoteButtonFor(counts: PerChoice<nat>, total: nat, c: Choice): Button {
    VoteButton(c, counts.Get(c), Percent(counts.Get(c), total))
  }

  function VoteButtons(counts: PerChoice<nat>, total: nat): seq<Button> {
    seq(3, k requires 0 <= k < 3 => VoteButtonFor(counts, total, Options[k]))
  }

  /** The keyboard attached to the poll message for the given votes. */
  function Keyboard(vs: seq<Vote>): seq<Button> {
    VoteButtons(TallyOf(vs), |vs|) + [StatsButton]
  }

  /** The keyboard has one button per answer, in order, then the statistics
      button; the button counts add up to the number of votes and the
      percentages to 100 (all 0 with no votes). */
  lemma KeyboardFacts(vs: seq<Vote>)
    ensures var kb := Keyboard(vs);
            && |kb| == 4 && kb[3] == StatsButton
            && (forall k :: 0 <= k < 3 ==> kb[k].VoteButton? && kb[k].choice == Options[k]
                                           && kb[k].count == Count(vs, Options[k])
                                           && 0.0 <= kb[k].percent <= 100.0)
            && kb[0].count + kb[1].count + kb[2].count == |vs|
            && (|vs| == 0 ==> forall k :: 0 <= k < 3 ==> kb[k].percent == 0.0)
            && (|vs| > 0 ==> kb[0].percent + kb[1].percent + kb[2].percent == 100.0)
  {
    CountsSum(vs);
    PercentRange(Count(vs, ByFirstLesson), |vs|);
    PercentRange(Count(vs, BySecondLesson), |vs|);
    PercentRange(Count(vs, NotComing), |vs|);
    if |vs| > 0 {
      PercentagesSum(vs);
    }
  }

  // ----------------------------------------------------------------- results

  datatype ResultRow = ResultRow(choice: Choice, bar: seq<Cell>, count: nat, percent: real)

  /** The /results text: a fixed message without an active poll, otherwise
      one row per answer and the number of voters. */
  datatype ResultsView = NoActivePoll | Results(rows: seq<ResultRow>, total: nat)

  function ResultRowFor(counts: PerChoice<nat>, total: nat, c: Choice): ResultRow {
    var p := Percent(counts.Get(c), total);
    ResultRow(c, Bar(p), counts.Get(c), p)
  }

  function ResultRows(counts: PerChoice<nat>, total: nat): seq<ResultRow> {
    seq(3, k requires 0 <= k < 3 => ResultRowFor(counts, total, Options[k]))
  }

  function ResultsOf(pollId: Option<string>, vs: seq<Vote>): ResultsView {
    if !IsActive(pollId) then NoActivePoll else Results(ResultRows(TallyOf(vs), |vs|), |vs|)
  }

  /** Without an active poll the results are the fixed message; with one there
      is a row per answer whose counts add up to the total, and every bar has
      ten cells of which the first count * 10 / total are filled. */
  lemma ResultsFacts(pollId: Option<string>, vs: seq<Vote>)
    ensures ResultsOf(pollId, vs).NoActivePoll? <==> !IsActive(pollId)
    ensures IsActive(pollId) ==>
              var rows := ResultsOf(pollId, vs).rows;
              && ResultsOf(pollId, vs).total == |vs|
              && |rows| == 3
              && rows[0].count + rows[1].count + rows[2].count == |vs|
              && forall k :: 0 <= k < 3 ==>
                   var f := if |vs| > 0 then rows[k].count * 10 / |vs| else 0;
                   && rows[k].choice == Options[k]
                   && rows[k].count == Count(vs, Options[k])
                   && 0 <= f <= 10 && |rows[k].bar| == 10
                   && forall i :: 0 <= i < 10 ==> (rows[k].bar[i] == Filled <==> i < f)
  {
    CountsSum(vs);
    forall k | 0 <= k < 3 {
      BarCells(Count(vs, Options[k]), |vs|);
    }
  }

  // ------------------------------------------------------------------ voters

  /** The body of one answer's group: a dash when nobody chose it, else one bullet per voter. */
  datatype GroupBody = Dash | Bullets(names: seq<string>)

  datatype VoterGroup = VoterGroup(choice: Choice, count: nat, body: GroupBody)

  /** The /voters text: a fixed placeholder without votes, else three groups. */
  datatype VotersView = NobodyYet | ByOption(groups: seq<VoterGroup>)

  function VoterGroupFor(groups: PerChoice<seq<string>>, c: Choice): VoterGroup {
    var names := groups.Get(c);
    VoterGroup(c, |names|, if names == [] then Dash else Bullets(names))
  }

  function VoterGroups(groups: PerChoice<seq<string>>): seq<VoterGroup> {
    seq(3, k requires 0 <= k < 3 => VoterGroupFor(groups, Options[k]))
  }

  function VotersOf(vs: seq<Vote>): VotersView {
    if vs == [] then NobodyYet else ByOption(VoterGroups(GroupsOf(vs, DisplayName)))
  }

  /** One answer's group holds exactly the display names of the voters who
      chose it, in order, or a dash when there are none. */
  lemma VoterGroupFacts(vs: seq<Vote>, c: Choice)
    ensures VoterGroupFor(GroupsOf(vs, DisplayName), c)
         == VoterGroup(c, Count(vs, c), if Count(vs, c) == 0 then Dash else Bullets(Labels(Only(vs, c), DisplayName)))
  {
    assert GroupsOf(vs, DisplayName).Get(c) == Labels(Only(vs, c), DisplayName);
  }

  /** Without votes the placeholder is shown. Otherwise each answer has a group
      listing, in dictionary order, the display names of exactly the voters who
      chose it (a dash when there are none), and the group sizes add up to the
      number of voters. */
  lemma VotersFacts(vs: seq<Vote>)
    ensures VotersOf(vs).NobodyYet? <==> vs == []
    ensures vs != [] ==>
              var gs := VotersOf(vs).groups;
              && |gs| == 3
              && gs[0].count + gs[1].count + gs[2].count == |vs|
              && forall k :: 0 <= k < 3 ==>
                   gs[k] == VoterGroup(Options[k], Count(vs, Options[k]),
                                       if Count(vs, Options[k]) == 0 then Dash
                                       else Bullets(Labels(Only(vs, Options[k]), DisplayName)))
  {
    CountsSum(vs);
    if vs != [] {
      var groups := GroupsOf(vs, DisplayName);
      VoterGroupFacts(vs, ByFirstLesson);
      VoterGroupFacts(vs, BySecondLesson);
      VoterGroupFacts(vs, NotComing);
      assert VotersOf(vs).groups == VoterGroups(groups);
    }
  }

  // -------------------------------------------------------------- full stats

  /** One answer in the full statistics: its count and percentage, the first
      names of its voters, and how many more were left unlisted. */
  datatype StatsSection = StatsSection(choice: Choice, count: nat, percent: real,
                                       listed: seq<string>, more: Option<nat>)

  datatype StatsView = StatsView(total: nat, sections: seq<StatsSection>)

  function StatsSectionFor(counts: PerChoice<nat>, names: PerChoice<seq<string>>, total: nat, c: Choice): StatsSection {
    var ns := names.Get(c);
    StatsSection(c, counts.Get(c), Percent(counts.Get(c), total),
                 ns[..Min(|ns|, MaxListed)],
                 if |ns| > MaxListed then Some(|ns| - MaxListed) else None)
  }

  function StatsSections(counts: PerChoice<nat>, names: PerChoice<seq<string>>, total: nat): seq<StatsSection> {
    seq(3, k requires 0 <= k < 3 => StatsSectionFor(counts, names, total, Options[k]))
  }

  function FullStatsOf(vs: seq<Vote>): StatsView {
    StatsView(|vs|, StatsSections(TallyOf(vs), GroupsOf(vs, PlainName), |vs|))
  }

  /** A section lists the first of the given names, at most ten, and
      announces the N = count - 10 others exactly when there are more than
      ten; listed and announced add up to the count. */
  ghost predicate ListsFirstTen(sec: StatsSection, names: seq<string>) {
    && |sec.listed| <= MaxListed && |sec.listed| <= |names|
    && sec.listed == names[..|sec.listed|]
    && (sec.count <= MaxListed ==> sec.listed == names && sec.more == None)
    && (sec.count > MaxListed ==> |sec.listed| == MaxListed && sec.more == Some(sec.count - MaxListed))
    && |sec.listed| + (if sec.more.Some? then sec.more.value else 0) == sec.count
  }

  /** Every section is cut as ListsFirstTen says. */
  lemma SectionTruncation(counts: PerChoice<nat>, names: PerChoice<seq<string>>, total: nat, c: Choice)
    requires counts.Get(c) == |names.Get(c)|
    ensures ListsFirstTen(StatsSectionFor(counts, names, total, c), names.Get(c))
  {
  }

  /** The full statistics show the number of votes as the total and, for
      each answer in order, its count and the first (at most ten) of its
      voters' names in dictionary order, with the rest announced. */
  lemma FullStatsFacts(vs: seq<Vote>)
    ensures var st := FullStatsOf(vs);
            && st.total == |vs|
            && |st.sections| == 3
            && forall k :: 0 <= k < 3 ==>
                 && st.sections[k].choice == Options[k]
                 && st.sections[k].count == Count(vs, Options[k])
                 && ListsFirstTen(st.sections[k], Labels(Only(vs, Options[k]), PlainName))
  {
    var counts, names := TallyOf(vs), GroupsOf(vs, PlainName);
    forall k | 0 <= k < 3
      ensures ListsFirstTen(StatsSectionFor(counts, names, |vs|, Options[k]), names.Get(Options[k]))
    {
      SectionTruncation(counts, names, |vs|, Options[k]);
    }
  }
}
