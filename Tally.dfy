/** What the bot derives from the votes, in dictionary order: the count per
    answer, the voters grouped per answer, the percentage of every answer and
    the ten-cell bar drawn for it. */
module Tally {
  import opened Ballot

  /** How many of the votes chose c. */
  function Count(vs: seq<Vote>, c: Choice): (n: nat)
    ensures n <= |vs|
  {
    if vs == [] then 0
    else Count(vs[..|vs| - 1], c) + (if vs[|vs| - 1].choice == c then 1 else 0)
  }

  /** The dictionary {'1': n1, '2': n2, '3': n3} of counts. */
  function TallyOf(vs: seq<Vote>): PerChoice<nat> {
    PerChoice(Count(vs, ByFirstLesson), Count(vs, BySecondLesson), Count(vs, NotComing))
  }

  /** The votes that chose c, in their original order. */
  function Only(vs: seq<Vote>, c: Choice): (r: seq<Vote>)
    ensures |r| == Count(vs, c)
    ensures forall i :: 0 <= i < |r| ==> r[i].choice == c
  {
    if vs == [] then []
    else Only(vs[..|vs| - 1], c) + (if vs[|vs| - 1].choice == c then [vs[|vs| - 1]] else [])
  }

  /** The name (a display name) of every vote, in order. */
  function Labels(vs: seq<Vote>, name: Vote -> string): (r: seq<string>)
    ensures |r| == |vs|
    ensures forall i :: 0 <= i < |vs| ==> r[i] == name(vs[i])
  {
    if vs == [] then [] else Labels(vs[..|vs| - 1], name) + [name(vs[|vs| - 1])]
  }

  /** The dictionary {'1': [...], '2': [...], '3': [...]} of voters' labels. */
  function GroupsOf(vs: seq<Vote>, name: Vote -> string): PerChoice<seq<string>> {
    PerChoice(Labels(Only(vs, ByFirstLesson), name),
              Labels(Only(vs, BySecondLesson), name),
              Labels(Only(vs, NotComing), name))
  }

  /** The three counts add up to the number of votes. */
  lemma {:induction false} CountsSum(vs: seq<Vote>)
    ensures Count(vs, ByFirstLesson) + Count(vs, BySecondLesson) + Count(vs, NotComing) == |vs|
  {
    if vs != [] {
      CountsSum(vs[..|vs| - 1]);
    }
  }

  /** Counting one more vote increments exactly the count of its answer. */
  lemma TallyStep(vs: seq<Vote>, i: nat)
    requires i < |vs|
    ensures TallyOf(vs[..i + 1]) == TallyOf(vs[..i]).Set(vs[i].choice, TallyOf(vs[..i]).Get(vs[i].choice) + 1)
  {
    assert vs[..i + 1][..i] == vs[..i];
  }

  /** Filtering and labelling one more vote extends the group of its answer only. */
  lemma GroupStep(vs: seq<Vote>, i: nat, c: Choice, name: Vote -> string)
    requires i < |vs|
    ensures Labels(Only(vs[..i + 1], c), name)
         == Labels(Only(vs[..i], c), name) + (if vs[i].choice == c then [name(vs[i])] else [])
  {
    var p := vs[..i + 1];
    assert p[..i] == vs[..i];
    if vs[i].choice == c {
      var o := Only(p, c);
      assert o[..|o| - 1] == Only(vs[..i], c);
    }
  }

  /** Grouping one more vote appends its name to the group of its answer only. */
  lemma GroupsStep(vs: seq<Vote>, i: nat, name: Vote -> string)
    requires i < |vs|
    ensures GroupsOf(vs[..i + 1], name)
         == GroupsOf(vs[..i], name).Set(vs[i].choice, GroupsOf(vs[..i], name).Get(vs[i].choice) + [name(vs[i])])
  {
    var g, x := GroupsOf(vs[..i], name), name(vs[i]);
    GroupStep(vs, i, ByFirstLesson, name);
    GroupStep(vs, i, BySecondLesson, name);
    GroupStep(vs, i, NotComing, name);
    var l1, l2, l3 := Labels(Only(vs[..i + 1], ByFirstLesson), name),
                      Labels(Only(vs[..i + 1], BySecondLesson), name),
                      Labels(Only(vs[..i + 1], NotComing), name);
    assert GroupsOf(vs[..i + 1], name) == PerChoice(l1, l2, l3);
    match vs[i].choice
    case ByFirstLesson =>
      assert l1 == g.first + [x] && l2 == g.second && l3 == g.absent;
      assert g.Set(ByFirstLesson, g.first + [x]) == PerChoice(g.first + [x], g.second, g.absent);
    case BySecondLesson =>
      assert l1 == g.first && l2 == g.second + [x] && l3 == g.absent;
      assert g.Set(BySecondLesson, g.second + [x]) == PerChoice(g.first, g.second + [x], g.absent);
    case NotComing =>
      assert l1 == g.first && l2 == g.second && l3 == g.absent + [x];
      assert g.Set(NotComing, g.absent + [x]) == PerChoice(g.first, g.second, g.absent + [x]);
  }

  /** Filtering one more vote adds it to the group of its own answer only. */
  lemma OnlyStep(vs: seq<Vote>, c: Choice)
    requires vs != []
    ensures multiset(Only(vs, c))
         == multiset(Only(vs[..|vs| - 1], c)) + (if vs[|vs| - 1].choice == c then multiset{vs[|vs| - 1]} else multiset{})
  {
  }

  /** Filtering a prefix of the votes gives a prefix of the filtered votes. */
  lemma {:induction false} OnlyPrefix(vs: seq<Vote>, c: Choice, i: nat)
    requires i <= |vs|
    ensures Only(vs[..i], c) <= Only(vs, c)
  {
    if i < |vs| {
      var p := vs[..|vs| - 1];
      assert vs[..i] == p[..i];
      OnlyPrefix(p, c, i);
    } else {
      assert vs[..i] == vs;
    }
  }

  /** Grouping keeps dictionary order: a vote for c that has k votes for c
      before it is the k-th entry (from 0) of the group of c. */
  lemma OnlyKeepsOrder(vs: seq<Vote>, c: Choice, i: nat)
    requires i < |vs| && vs[i].choice == c
    ensures Count(vs[..i], c) < |Only(vs, c)|
    ensures Only(vs, c)[Count(vs[..i], c)] == vs[i]
  {
    var p := vs[..i + 1];
    assert p[..|p| - 1] == vs[..i];
    assert Only(p, c) == Only(vs[..i], c) + [vs[i]];
    OnlyPrefix(vs, c, i + 1);
  }

  /** Filtering one more vote adds one occurrence of it to its own group only. */
  lemma OnlyStepAt(vs: seq<Vote>, c: Choice, v: Vote)
    requires vs != []
    ensures multiset(Only(vs, c))[v]
         == multiset(Only(vs[..|vs| - 1], c))[v] + (if vs[|vs| - 1].choice == c && vs[|vs| - 1] == v then 1 else 0)
  {
    OnlyStep(vs, c);
  }

  /** One more vote adds one occurrence of it to all votes. */
  lemma SeqStepAt(vs: seq<Vote>, v: Vote)
    requires vs != []
    ensures multiset(vs)[v] == multiset(vs[..|vs| - 1])[v] + (if vs[|vs| - 1] == v then 1 else 0)
  {
    assert vs == vs[..|vs| - 1] + [vs[|vs| - 1]];
  }

  /** Each vote occurs in the three groups together as often as among all votes. */
  lemma {:induction false} PartsCount(vs: seq<Vote>, v: Vote)
    ensures multiset(Only(vs, ByFirstLesson))[v] + multiset(Only(vs, BySecondLesson))[v] + multiset(Only(vs, NotComing))[v]
         == multiset(vs)[v]
  {
    if vs != [] {
      PartsCount(vs[..|vs| - 1], v);
      OnlyStepAt(vs, ByFirstLesson, v);
      OnlyStepAt(vs, BySecondLesson, v);
      OnlyStepAt(vs, NotComing, v);
      SeqStepAt(vs, v);
    }
  }

  /** Every vote lands in exactly one group: the groups of the three answers
      together hold all votes, each as often as it occurs. */
  lemma OnlyPartition(vs: seq<Vote>)
    ensures multiset(Only(vs, ByFirstLesson)) + multiset(Only(vs, BySecondLesson)) + multiset(Only(vs, NotComing))
         == multiset(vs)
  {
    forall v
      ensures (multiset(Only(vs, ByFirstLesson)) + multiset(Only(vs, BySecondLesson)) + multiset(Only(vs, NotComing)))[v]
           == multiset(vs)[v]
    {
      PartsCount(vs, v);
    }
  }

  /** The percentage of an answer: 0 with no votes, count * 100 / total otherwise. */
  function Percent(count: nat, total: nat): real {
    if total > 0 then (count as real) / (total as real) * 100.0 else 0.0
  }

  lemma PercentRange(count: nat, total: nat)
    requires count <= total
    ensures 0.0 <= Percent(count, total) <= 100.0
    ensures total == 0 ==> Percent(count, total) == 0.0
    ensures total > 0 ==> Percent(count, total) * (total as real) == (count as real) * 100.0
  {
    if total > 0 {
      var t := total as real;
      var q := (count as real) / t;
      assert q * t == count as real;
      assert q * t <= 1.0 * t;
    }
  }

  /** Three shares of a positive total add up to exactly 100 percent. */
  lemma ShareSum(a: nat, b: nat, c: nat)
    requires a + b + c > 0
    ensures Percent(a, a + b + c) + Percent(b, a + b + c) + Percent(c, a + b + c) == 100.0
  {
    var t := (a + b + c) as real;
    var x, y, z := (a as real) / t, (b as real) / t, (c as real) / t;
    assert x * t == a as real && y * t == b as real && z * t == c as real;
    assert (x + y + z) * t == x * t + y * t + z * t;
    assert (x + y + z - 1.0) * t == 0.0;
  }

  /** With at least one vote the three percentages add up to exactly 100. */
  lemma PercentagesSum(vs: seq<Vote>)
    requires |vs| > 0
    ensures Percent(Count(vs, ByFirstLesson), |vs|) + Percent(Count(vs, BySecondLesson), |vs|)
          + Percent(Count(vs, NotComing), |vs|) == 100.0
  {
    CountsSum(vs);
    ShareSum(Count(vs, ByFirstLesson), Count(vs, BySecondLesson), Count(vs, NotComing));
  }

  datatype Cell = Filled | Empty

  /** Python's string repetition: a non-positive count gives the empty string. */
  function Repeat(c: Cell, n: int): (r: seq<Cell>)
    ensures |r| == if n > 0 then n else 0
    ensures forall i :: 0 <= i < |r| ==> r[i] == c
  {
    if n <= 0 then [] else seq(n, _ => c)
  }

  /** int(x): truncation toward zero. */
  function Truncate(x: real): int {
    if x >= 0.0 then x.Floor else -((-x).Floor)
  }

  /** The results bar: int(percent / 10) filled cells, then 10 minus that many empty ones. */
  function Bar(percent: real): seq<Cell> {
    var k := Truncate(percent / 10.0);
    Repeat(Filled, k) + Repeat(Empty, 10 - k)
  }

  lemma FractionBelowOne(r: nat, b: nat)
    requires r < b
    ensures 0.0 <= (r as real) / (b as real) < 1.0
  {
    var y := (r as real) / (b as real);
    assert y * (b as real) == r as real;
  }

  lemma SplitQuotient(a: nat, b: nat)
    requires b > 0
    ensures (a as real) / (b as real) == ((a / b) as real) + ((a % b) as real) / (b as real)
  {
    var q, r := a / b, a % b;
    assert a == q * b + r;
    assert (a as real) == (q as real) * (b as real) + (r as real);
  }

  lemma FloorOfRatio(a: nat, b: nat)
    requires b > 0
    ensures ((a as real) / (b as real)).Floor == a / b
  {
    SplitQuotient(a, b);
    FractionBelowOne(a % b, b);
  }

  /** The bar's filled count is count * 10 / total, computed in exact arithmetic. */
  lemma FilledCount(count: nat, total: nat)
    requires count <= total
    ensures 0 <= Truncate(Percent(count, total) / 10.0) <= 10
    ensures Truncate(Percent(count, total) / 10.0) == if total > 0 then count * 10 / total else 0
  {
    if total > 0 {
      var t := total as real;
      var p := Percent(count, total);
      PercentRange(count, total);
      assert p / 10.0 * t == (count * 10) as real;
      QuotientOfProduct(p / 10.0, t, (count * 10) as real);
      FloorOfRatio(count * 10, total);
      assert count * 10 <= total * 10;
      DivBound(count * 10, total);
    }
  }

  /** A number times t is y exactly when it is y / t. */
  lemma QuotientOfProduct(x: real, t: real, y: real)
    requires t != 0.0 && x * t == y
    ensures x == y / t
  {
  }

  lemma DivBound(a: nat, b: nat)
    requires b > 0 && a <= b * 10
    ensures a / b <= 10
  {
    var q := a / b;
    assert q * b <= a;
    assert (q - 10) * b <= 0;
  }

  /** Every bar has exactly ten cells; the first count * 10 / total of them are
      filled (none with no votes), which is between 0 and 10. */
  lemma BarCells(count: nat, total: nat)
    requires count <= total
    ensures var f := if total > 0 then count * 10 / total else 0;
            var b := Bar(Percent(count, total));
            0 <= f <= 10 && |b| == 10 && forall i :: 0 <= i < 10 ==> (b[i] == Filled <==> i < f)
  {
    FilledCount(count, total);
  }
}
