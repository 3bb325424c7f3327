/** The records the attendance poll stores: the three answers offered by the
    poll's buttons, one vote per user, and the per-answer dictionaries the bot
    builds while it tallies. */
module Ballot {

  datatype Option<T> = None | Some(value: T)

  /** The answers behind the callback data "vote_1", "vote_2" and "vote_3":
      coming for the first lesson, coming for the second lesson, not coming. */
  datatype Choice = ByFirstLesson | BySecondLesson | NotComing

  /** The order in which every rendering lists the answers. */
  const Options: seq<Choice> := [ByFirstLesson, BySecondLesson, NotComing]

  /** One stored vote: the answer, the voter's full name and optional
      username as they were when the vote was cast, and the time of the vote. */
  datatype Vote = Vote(choice: Choice, name: string, username: Option<string>, timestamp: string)

  /** A username counts only when it is present and non-empty (Python truthiness). */
  predicate HasUsername(v: Vote) {
    v.username.Some? && v.username.value != ""
  }

  /** The name shown in the voters list: "name (@username)", or the bare name. */
  function DisplayName(v: Vote): (s: string)
    ensures |s| >= |v.name| && s[..|v.name|] == v.name
    ensures s == v.name <==> !HasUsername(v)
    ensures HasUsername(v) ==> s[|v.name|..] == " (@" + v.username.value + ")"
  {
    if HasUsername(v) then v.name + " (@" + v.username.value + ")" else v.name
  }

  /** The name shown in the full statistics, which never adds the username. */
  function PlainName(v: Vote): string {
    v.name
  }

  /** An optional numeric id is set when it is present and non-zero (Python truthiness). */
  predicate IsSet(id: Option<int>) {
    id.Some? && id.value != 0
  }

  /** An optional poll id is active when it is present and non-empty (Python truthiness). */
  predicate IsActive(pollId: Option<string>) {
    pollId.Some? && pollId.value != ""
  }

  /** A dictionary with exactly the keys '1', '2' and '3', one value per answer. */
  datatype PerChoice<T> = PerChoice(first: T, second: T, absent: T) {

    function Get(c: Choice): T {
      match c
      case ByFirstLesson => first
      case BySecondLesson => second
      case NotComing => absent
    }

    function Set(c: Choice, x: T): (r: PerChoice<T>)
      ensures r.Get(c) == x
      ensures forall d :: d != c ==> r.Get(d) == Get(d)
    {
      match c
      case ByFirstLesson => this.(first := x)
      case BySecondLesson => this.(second := x)
      case NotComing => this.(absent := x)
    }
  }
}
