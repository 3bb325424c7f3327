/** The attendance bot's in-memory poll state and the handlers that read and
    change it. Every call to the messaging platform is replaced by an input
    that says how the call went, so the partial updates the handlers make when
    a call fails are part of the model. */
module Bot {
  import opened Ballot
  import opened Decimal
  import opened Tally
  import opened VoteTable
  import opened Views
  import opened Calendar

  /** The one user allowed to run the privileged commands and callbacks. */
  const AdminUserId: int := 2073879359

  predicate IsAdmin(userId: int) {
    userId == AdminUserId
  }

  /** The platform calls the bot makes while it publishes a poll. */
  datatype Call = SendPoll(chat: int, markup: seq<Button>) | Unpin(chat: int, message: int) | Pin(chat: int, message: int)

  /** How editing the poll message's keyboard went. */
  datatype EditResult = Edited | NotModified | EditFailed

  /** The answer shown to a voter: the poll is declared out of date, the vote
      was confirmed, acknowledged silently (the keyboard had not changed), or
      the voter is asked to try again. */
  datatype VoteReply = Expired | Confirmed(choice: Choice) | Acknowledged | TryAgain

  /** The buttons of the admin panel, and any other "admin_" callback. */
  datatype AdminAction = FullStats | Refresh | Clear | CreateNow | OtherAction

  /** The outcome of an admin panel press: refused for a non-admin, the full
      statistics sent as a reply, new voting buttons that replace the buttons
      of the message whose button was pressed (the admin panel itself, not
      the pinned poll), a plain answer, or the generic error answer after a
      failed platform call. */
  datatype AdminReply = Refused | ShowStats(stats: StatsView) | NewMarkup(markup: seq<Button>) | Answered | Failed

  /** The date of the message a button belongs to, in whole seconds, as the
      platform reports it: a naive date-time, or one that carries a time zone. */
  datatype MessageDate = Naive(seconds: int) | Aware(seconds: int)

  /** The vote handler's limit on `.seconds` of (now - poll message date). */
  const ExpirySeconds: int := 120

  /** The vote handler's test: it measures the age of the poll MESSAGE, not of
      the press, and through `.seconds` only modulo one day. */
  predicate Expires(now: int, posted: int) {
    TimedeltaSeconds(now, posted) > ExpirySeconds
  }

  /** Within a day of the poll message the test refuses every press made more
      than two minutes after the poll was posted; whole days later the same
      answer comes back as on the first day. */
  lemma ExpiryMeasuresPollAge(now: int, posted: int, days: int)
    ensures 0 <= now - posted < SecondsPerDay ==> (Expires(now, posted) <==> now - posted > ExpirySeconds)
    ensures Expires(now + days * SecondsPerDay, posted) <==> Expires(now, posted)
  {
    TimedeltaDropsDays(now, posted, days);
  }

  /** On a weekly poll: a press three minutes after posting is refused, one a
      day and a minute after posting is accepted. */
  lemma ExpiryExamples(posted: int)
    ensures Expires(posted + 180, posted)
    ensures !Expires(posted + SecondsPerDay + 60, posted)
  {
    ExpiryMeasuresPollAge(posted + 60, posted, 1);
  }

  /** The reply to /results or /voters. */
  datatype Reply<T> = Denied | NoPoll | Show(view: T)

  /** The calls made for a configured chat: send the poll; once it is sent,
      unpin the previous poll message if there is one, then pin the new one. */
  function PollCalls(chat: int, markup: seq<Button>, previous: Option<int>, sent: Option<int>): seq<Call> {
    [SendPoll(chat, markup)]
    + if sent.None? then []
      else (if IsSet(previous) then [Unpin(chat, previous.value)] else []) + [Pin(chat, sent.value)]
  }

  /** The per-answer loop of the voters list: each answer's number of voters
      and their names as bullets, or a dash when there are none. */
  method VoterGroupsLoop(byOption: PerChoice<seq<string>>) returns (groups: seq<VoterGroup>)
    ensures groups == VoterGroups(byOption)
  {
    groups := [];
    for k := 0 to 3
      invariant groups == VoterGroups(byOption)[..k]
    {
      var voters := byOption.Get(Options[k]);
      groups := groups + [VoterGroup(Options[k], |voters|, if voters != [] then Bullets(voters) else Dash)];
    }
  }

  /** The per-answer loop of the full statistics: each answer's count,
      percentage, first ten names and the number left unlisted. */
  method StatsSectionsLoop(counts: PerChoice<nat>, byOption: PerChoice<seq<string>>, total: nat)
    returns (sections: seq<StatsSection>)
    ensures sections == StatsSections(counts, byOption, total)
  {
    sections := [];
    for k := 0 to 3
      invariant sections == StatsSections(counts, byOption, total)[..k]
    {
      var option := Options[k];
      var count := counts.Get(option);
      var voters := byOption.Get(option);
      var listed := voters[..Min(|voters|, MaxListed)];
      var more := if |voters| > MaxListed then Some(|voters| - MaxListed) else None;
      sections := sections + [StatsSection(option, count, Percent(count, total), listed, more)];
    }
  }

  class MondayAttendanceBot {
    var chatId: Option<int>
    var lastPollMessageId: Option<int>
    var currentPollId: Option<string>
    /** The votes dictionary, keyed by the stringified user id ... */
    var votes: map<string, Vote>
    /** ... and its keys in insertion order. */
    var voteOrder: seq<string>

    ghost predicate Valid()
      reads this
    {
      Ordered(voteOrder, votes)
    }

    /** votes.values(), in dictionary order. */
    ghost function Ballots(): seq<Vote>
      reads this
      requires Valid()
    {
      ValuesInOrder(voteOrder, votes)
    }

    constructor ()
      ensures Valid()
      ensures chatId == None && lastPollMessageId == None && currentPollId == None
      ensures votes == map[] && voteOrder == []
    {
      chatId := None;
      lastPollMessageId := None;
      currentPollId := None;
      votes := map[];
      voteOrder := [];
    }

    /** The counting loop: one pass over the votes, one increment per vote. */
    method TallyVotes() returns (counts: PerChoice<nat>)
      requires Valid()
      ensures counts == TallyOf(Ballots())
    {
      var values := ValuesInOrder(voteOrder, votes);
      counts := PerChoice(0, 0, 0);
      for i := 0 to |values|
        invariant counts == TallyOf(values[..i])
      {
        var option := values[i].choice;
        counts := counts.Set(option, counts.Get(option) + 1);
        assert counts == TallyOf(values[..i + 1]) by {
          TallyStep(values, i);
        }
      }
      assert values[..|values|] == values;
    }

    method CreateVotingKeyboard() returns (kb: seq<Button>)
      requires Valid()
      ensures kb == Keyboard(Ballots())
    {
      var counts := TallyVotes();
      var total := |votes|;
      OrderedSize(voteOrder, votes);
      kb := [];
      for k := 0 to 3
        invariant kb == VoteButtons(counts, total)[..k]
      {
        var option := Options[k];
        var count := counts.Get(option);
        kb := kb + [VoteButton(option, count, Percent(count, total))];
      }
      if IsAdmin(AdminUserId) {
        kb := kb + [StatsButton];
      }
    }

    method GetResultsText() returns (view: ResultsView)
      requires Valid()
      ensures view == ResultsOf(currentPollId, Ballots())
    {
      if !IsActive(currentPollId) {
        return NoActivePoll;
      }
      var counts := TallyVotes();
      var total := |votes|;
      OrderedSize(voteOrder, votes);
      var rows := [];
      for k := 0 to 3
        invariant rows == ResultRows(counts, total)[..k]
      {
        var option := Options[k];
        var count := counts.Get(option);
        var percentage := Percent(count, total);
        rows := rows + [ResultRow(option, Bar(percentage), count, percentage)];
      }
      view := Results(rows, total);
    }

    /** The grouping loop: each vote's display name is appended to the list of its answer. */
    method GroupVoters() returns (byOption: PerChoice<seq<string>>)
      requires Valid()
      ensures byOption == GroupsOf(Ballots(), DisplayName)
    {
      var values := ValuesInOrder(voteOrder, votes);
      byOption := PerChoice([], [], []);
      assert values[..0] == [];
      for i := 0 to |values|
        invariant byOption == GroupsOf(values[..i], DisplayName)
      {
        var vote := values[i];
        byOption := byOption.Set(vote.choice, byOption.Get(vote.choice) + [DisplayName(vote)]);
        assert byOption == GroupsOf(values[..i + 1], DisplayName) by {
          GroupsStep(values, i, DisplayName);
        }
      }
      assert values[..|values|] == values;
    }

    method GetVotersText() returns (view: VotersView)
      requires Valid()
      ensures view == VotersOf(Ballots())
    {
      OrderedSize(voteOrder, votes);
      if |votes| == 0 {
        return NobodyYet;
      }
      var byOption := GroupVoters();
      var groups := VoterGroupsLoop(byOption);
      view := ByOption(groups);
    }

    /** The statistics loop: one pass that counts each vote and appends the
        voter's name to the list of its answer. */
    method CountAndListNames() returns (counts: PerChoice<nat>, byOption: PerChoice<seq<string>>)
      requires Valid()
      ensures counts == TallyOf(Ballots())
      ensures byOption == GroupsOf(Ballots(), PlainName)
    {
      var values := ValuesInOrder(voteOrder, votes);
      counts := PerChoice(0, 0, 0);
      byOption := PerChoice([], [], []);
      assert values[..0] == [];
      for i := 0 to |values|
        invariant counts == TallyOf(values[..i])
        invariant byOption == GroupsOf(values[..i], PlainName)
      {
        var vote := values[i];
        counts := counts.Set(vote.choice, counts.Get(vote.choice) + 1);
        assert counts == TallyOf(values[..i + 1]) by {
          TallyStep(values, i);
        }
        byOption := byOption.Set(vote.choice, byOption.Get(vote.choice) + [vote.name]);
        assert byOption == GroupsOf(values[..i + 1], PlainName) by {
          GroupsStep(values, i, PlainName);
        }
      }
      assert values[..|values|] == values;
    }

    method GetFullStatsText() returns (view: StatsView)
      requires Valid()
      ensures view == FullStatsOf(Ballots())
    {
      var totalUsers := |votes|;
      OrderedSize(voteOrder, votes);
      var counts, byOption := CountAndListNames();
      var sections := StatsSectionsLoop(counts, byOption, totalUsers);
      view := StatsView(totalUsers, sections);
    }

    /** /results: admins only, and only while a poll is active. */
    method ResultsCommand(userId: int) returns (reply: Reply<ResultsView>)
      requires Valid()
      ensures !IsAdmin(userId) ==> reply == Denied
      ensures IsAdmin(userId) && !IsActive(currentPollId) ==> reply == NoPoll
      ensures IsAdmin(userId) && IsActive(currentPollId) ==>
                reply == Show(ResultsOf(currentPollId, Ballots())) && reply.view.Results?
    {
      if !IsAdmin(userId) {
        return Denied;
      }
      if !IsActive(currentPollId) {
        return NoPoll;
      }
      var text := GetResultsText();
      reply := Show(text);
    }

    /** /voters: admins only, and only while a poll is active. */
    method VotersCommand(userId: int) returns (reply: Reply<VotersView>)
      requires Valid()
      ensures !IsAdmin(userId) ==> reply == Denied
      ensures IsAdmin(userId) && !IsActive(currentPollId) ==> reply == NoPoll
      ensures IsAdmin(userId) && IsActive(currentPollId) ==> reply == Show(VotersOf(Ballots()))
    {
      if !IsAdmin(userId) {
        return Denied;
      }
      if !IsActive(currentPollId) {
        return NoPoll;
      }
      var text := GetVotersText();
      reply := Show(text);
    }

    /** Publishes a new poll in the configured chat. The poll id is replaced
        before any platform call; the votes are never touched; the pinned
        message id changes only once both sending and pinning succeeded.
        `nowSeconds` is the current Unix time in whole seconds, `sent` the id of
        the sent message (None when sending failed) and `pinned` whether
        pinning succeeded. */
    method CreateMondayPoll(nowSeconds: int, sent: Option<int>, pinned: bool) returns (calls: seq<Call>)
      requires Valid()
      modifies this
      ensures Valid()
      ensures votes == old(votes) && voteOrder == old(voteOrder) && chatId == old(chatId)
      ensures !IsSet(chatId) ==>
                currentPollId == old(currentPollId) && lastPollMessageId == old(lastPollMessageId) && calls == []
      ensures IsSet(chatId) ==>
                && currentPollId == Some(Str(nowSeconds))
                && calls == PollCalls(chatId.value, Keyboard(Ballots()), old(lastPollMessageId), sent)
                && lastPollMessageId == if sent.Some? && pinned then sent else old(lastPollMessageId)
    {
      if !IsSet(chatId) {
        return [];
      }
      currentPollId := Some(Str(nowSeconds));
      var keyboard := CreateVotingKeyboard();
      calls := [SendPoll(chatId.value, keyboard)];
      if sent.None? {
        return;
      }
      if IsSet(lastPollMessageId) {
        calls := calls + [Unpin(chatId.value, lastPollMessageId.value)];
      }
      calls := calls + [Pin(chatId.value, sent.value)];
      if !pinned {
        return;
      }
      lastPollMessageId := sent;
    }

    /** /start: an admin activates the bot in `chat`; once the welcome reply has
        gone out (`replied`), the first poll is published. */
    method StartCommand(userId: int, chat: int, replied: bool, nowSeconds: int, sent: Option<int>, pinned: bool)
      returns (calls: seq<Call>)
      requires Valid()
      modifies this
      ensures Valid()
      ensures !IsAdmin(userId) ==> unchanged(this) && calls == []
      ensures IsAdmin(userId) ==> chatId == Some(chat) && votes == old(votes) && voteOrder == old(voteOrder)
      ensures IsAdmin(userId) && (!replied || chat == 0) ==>
                currentPollId == old(currentPollId) && lastPollMessageId == old(lastPollMessageId) && calls == []
      ensures IsAdmin(userId) && replied && chat != 0 ==>
                && currentPollId == Some(Str(nowSeconds))
                && calls == PollCalls(chat, Keyboard(Ballots()), old(lastPollMessageId), sent)
                && lastPollMessageId == if sent.Some? && pinned then sent else old(lastPollMessageId)
    {
      if !IsAdmin(userId) {
        return [];
      }
      chatId := Some(chat);
      if !replied {
        return [];
      }
      calls := CreateMondayPoll(nowSeconds, sent, pinned);
    }

    /** A press on a vote button. `now` is the whole seconds of the naive
        clock reading and `timestamp` its ISO text; `posted` is the date of
        the poll message the button sits on. Subtracting a date that carries
        a time zone from the naive clock raises, and the voter is asked to
        try again with nothing stored. A press is declared out of date when
        the poll message is more than 120 s old, counted modulo one day.
        Otherwise the vote is stored under str(user id), replacing that
        user's earlier vote in place or going last for a new voter, before
        the keyboard is edited; a failed edit does not undo it. */
    method HandleVote(userId: int, fullName: string, username: Option<string>, choice: Choice,
                      now: int, timestamp: string, posted: MessageDate, edit: EditResult)
      returns (reply: VoteReply, markup: Option<seq<Button>>)
      requires Valid()
      modifies this
      ensures Valid()
      ensures chatId == old(chatId) && currentPollId == old(currentPollId)
      ensures lastPollMessageId == old(lastPollMessageId)
      ensures posted.Aware? ==> votes == old(votes) && voteOrder == old(voteOrder) && reply == TryAgain && markup == None
      ensures posted.Naive? && Expires(now, posted.seconds) ==>
                votes == old(votes) && voteOrder == old(voteOrder) && reply == Expired && markup == None
      ensures posted.Naive? && !Expires(now, posted.seconds) ==>
                var key := Str(userId);
                && votes == old(votes)[key := Vote(choice, fullName, username, timestamp)]
                && voteOrder == PutOrder(old(voteOrder), old(votes), key)
                && |Ballots()| == |old(Ballots())| + (if key in old(votes) then 0 else 1)
                && (forall c :: Count(Ballots(), c) + (if key in old(votes) && old(votes)[key].choice == c then 1 else 0)
                             == Count(old(Ballots()), c) + (if choice == c then 1 else 0))
                && markup == Some(Keyboard(Ballots()))
                && reply == match edit
                            case Edited => Confirmed(choice)
                            case NotModified => Acknowledged
                            case EditFailed => TryAgain
    {
      if posted.Aware? {
        return TryAgain, None;
      }
      if Expires(now, posted.seconds) {
        return Expired, None;
      }
      var key := Str(userId);
      var vote := Vote(choice, fullName, username, timestamp);
      ghost var order0, votes0 := voteOrder, votes;
      PutOrdered(order0, votes0, key, vote);
      PutValues(order0, votes0, key, vote);
      voteOrder := PutOrder(voteOrder, votes, key);
      votes := votes[key := vote];
      forall c
        ensures Count(Ballots(), c) + (if key in votes0 && votes0[key].choice == c then 1 else 0)
             == Count(ValuesInOrder(order0, votes0), c) + (if choice == c then 1 else 0)
      {
        PutCount(order0, votes0, key, vote, c);
      }
      var keyboard := CreateVotingKeyboard();
      markup := Some(keyboard);
      match edit
      case Edited => reply := Confirmed(choice);
      case NotModified => reply := Acknowledged;
      case EditFailed => reply := TryAgain;
    }

    /** A press on an admin panel button: refused for anyone but the admin;
        "clear" empties the votes and keeps the poll; "create now" publishes a
        new poll and keeps the votes. `delivered` says whether the action's
        own platform call (the statistics reply, or the edit of the pressed
        message's buttons) went through; when it fails the catch-all gives
        the error answer, and the votes that "clear" already emptied stay
        empty. */
    method HandleAdmin(userId: int, action: AdminAction, delivered: bool, nowSeconds: int, sent: Option<int>, pinned: bool)
      returns (reply: AdminReply, calls: seq<Call>)
      requires Valid()
      modifies this
      ensures Valid()
      ensures !IsAdmin(userId) ==> unchanged(this) && reply == Refused && calls == []
      ensures IsAdmin(userId) && action == FullStats ==>
                && unchanged(this) && calls == []
                && reply == if delivered then ShowStats(FullStatsOf(Ballots())) else Failed
      ensures IsAdmin(userId) && action == Refresh ==>
                && unchanged(this) && calls == []
                && reply == if delivered then NewMarkup(Keyboard(Ballots())) else Failed
      ensures IsAdmin(userId) && action == Clear ==>
                && votes == map[] && voteOrder == []
                && chatId == old(chatId) && currentPollId == old(currentPollId)
                && lastPollMessageId == old(lastPollMessageId)
                && calls == []
                && reply == if delivered then NewMarkup(Keyboard([])) else Failed
      ensures IsAdmin(userId) && action == CreateNow ==>
                && votes == old(votes) && voteOrder == old(voteOrder) && chatId == old(chatId)
                && reply == Answered
                && (!IsSet(chatId) ==>
                      currentPollId == old(currentPollId) && lastPollMessageId == old(lastPollMessageId) && calls == [])
                && (IsSet(chatId) ==>
                      && currentPollId == Some(Str(nowSeconds))
                      && calls == PollCalls(chatId.value, Keyboard(Ballots()), old(lastPollMessageId), sent)
                      && lastPollMessageId == if sent.Some? && pinned then sent else old(lastPollMessageId))
      ensures IsAdmin(userId) && action == OtherAction ==> unchanged(this) && reply == Answered && calls == []
    {
      calls := [];
      if !IsAdmin(userId) {
        return Refused, [];
      }
      match action
      case FullStats =>
        var stats := GetFullStatsText();
        reply := if delivered then ShowStats(stats) else Failed;
      case Refresh =>
        var keyboard := CreateVotingKeyboard();
        reply := if delivered then NewMarkup(keyboard) else Failed;
      case Clear =>
        votes := map[];
        voteOrder := [];
        var keyboard := CreateVotingKeyboard();
        reply := if delivered then NewMarkup(keyboard) else Failed;
      case CreateNow =>
        calls := CreateMondayPoll(nowSeconds, sent, pinned);
        reply := Answered;
      case OtherAction =>
        reply := Answered;
    }
  }

  /** /start in chat 100 and then in chat 200: the second poll's calls unpin
      message 11, the first chat's poll message, but address it to chat 200,
      because `last_poll_message_id` is kept across the change of chat. */
  method StartInSecondChat() returns (calls: seq<Call>)
    ensures calls == [SendPoll(200, Keyboard([])), Unpin(200, 11), Pin(200, 12)]
  {
    var bot := new MondayAttendanceBot();
    var first := bot.StartCommand(AdminUserId, 100, true, 0, Some(11), true);
    calls := bot.StartCommand(AdminUserId, 200, true, 60, Some(12), true);
    assert bot.Ballots() == [];
  }
}
