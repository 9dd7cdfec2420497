/**
 The command protocol of the parking-spot server, as pure functions.

 Inside its lock, every command a connection sends is one deterministic
 step on the pair (free spots, whether this connection holds a spot). Step
 is that step; Run is one connection's loop over the messages it receives;
 AcquireRound is a burst of acquire requests from connections that hold
 nothing. The classes in module ParkingServer are proved against these.
 */
module Protocol {
  import opened Text
  import opened Decimal

  /** The number of spots the server starts with. */
  const InitialSpots: nat := 10

  const QueryToken: string := "consultar_vaga"
  const AcquireToken: string := "pegar_vaga"
  const ReleaseToken: string := "liberar_vaga"

  datatype Option<T> = None | Some(value: T)

  /** What one message does: the new pool count, the connection's new
      `held` flag, the reply sent back (None when nothing is sent) and
      whether the connection goes on reading. */
  datatype Outcome = Outcome(available: int, held: bool, reply: Option<string>, continues: bool)

  /** The number of spots a connection accounts for. */
  function Holding(held: bool): nat
  {
    if held then 1 else 0
  }

  /** One command, handled atomically. An empty message means the peer
      closed its side: the loop ends and nothing else happens, so a spot
      still held stays taken. */
  function Step(available: int, held: bool, message: string): Outcome
  {
    if message == [] then Outcome(available, held, None, false)
    else
      var command := Strip(message);
      if command == QueryToken then
        Outcome(available, held, Some(IntToDecimal(available)), true)
      else if command == AcquireToken then
        if available > 0 && !held then Outcome(available - 1, true, Some("1"), true)
        else Outcome(available, held, Some("0"), true)
      else if command == ReleaseToken then
        if held then Outcome(available + 1, false, Some("1"), false)
        else Outcome(available, held, Some("0"), true)
      else
        Outcome(available, held, Some("-1"), true)
  }

  /** A query replies with the decimal count, which reads back as the count,
      and changes nothing. */
  lemma QueryStep(available: int, held: bool, message: string)
    requires Strip(message) == QueryToken
    ensures Step(available, held, message)
         == Outcome(available, held, Some(IntToDecimal(available)), true)
    ensures ParseInt(Step(available, held, message).reply.value) == available
  {
    IntRoundTrip(available);
  }

  /** An acquire succeeds exactly when a spot is free and the connection holds
      none; it then takes exactly one spot. */
  lemma AcquireStep(available: int, held: bool, message: string)
    requires Strip(message) == AcquireToken
    ensures var o := Step(available, held, message);
      && o.continues
      && (o.reply == Some("1") <==> available > 0 && !held)
      && (o.reply == Some("1") ==> o.available == available - 1 && o.held)
  {
  }

  /** A refused acquire (no free spot, or a second acquire by a holder that
      would be a double acquire) replies "0" and changes nothing. */
  lemma AcquireRefused(available: int, held: bool, message: string)
    requires Strip(message) == AcquireToken
    requires available <= 0 || held
    ensures Step(available, held, message) == Outcome(available, held, Some("0"), true)
  {
  }

  /** A holder's release returns its spot, clears its flag, and ends its
      loop. */
  lemma ReleaseByHolder(available: int, message: string)
    requires Strip(message) == ReleaseToken
    ensures Step(available, true, message) == Outcome(available + 1, false, Some("1"), false)
  {
  }

  /** A release by a connection that holds nothing is refused: no phantom
      spot appears and the connection goes on. */
  lemma ReleaseWithoutSpot(available: int, message: string)
    requires Strip(message) == ReleaseToken
    ensures Step(available, false, message) == Outcome(available, false, Some("0"), true)
  {
  }

  /** Any other non-empty message, a whitespace-only one included, replies
      "-1" and changes nothing. */
  lemma UnrecognizedStep(available: int, held: bool, message: string)
    requires message != []
    requires Strip(message) !in {QueryToken, AcquireToken, ReleaseToken}
    ensures Step(available, held, message) == Outcome(available, held, Some("-1"), true)
  {
  }

  /** An empty message ends the loop without touching the pool, and the
      connection keeps whatever it held. */
  lemma EmptyMessageStep(available: int, held: bool)
    ensures Step(available, held, []) == Outcome(available, held, None, false)
  {
  }

  /** Every step keeps free spots plus this connection's holding constant,
      and never makes the count negative. */
  lemma StepConserves(available: int, held: bool, message: string)
    ensures var o := Step(available, held, message);
      && o.available + Holding(o.held) == available + Holding(held)
      && (0 <= available ==> 0 <= o.available)
  {
  }

  /** A connection stops reading exactly after an empty message or after a
      successful release. */
  lemma StepStops(available: int, held: bool, message: string)
    ensures !Step(available, held, message).continues
        <==> message == [] || (Strip(message) == ReleaseToken && held)
  {
  }

  function Sent(reply: Option<string>): seq<string>
  {
    if reply.Some? then [reply.value] else []
  }

  /** Where one connection stands after reading a sequence of messages: the
      pool count, its flag, the replies it sent, how many messages it read,
      and whether it still reads. */
  datatype Transcript = Transcript(available: int, held: bool, sent: seq<string>, consumed: nat, connected: bool)

  /** One connection's loop, alone against the pool, over the messages that
      arrive on it. Once the loop has ended, later messages are never read. */
  function Run(available: int, held: bool, messages: seq<string>): Transcript
    decreases |messages|
  {
    if messages == [] then Transcript(available, held, [], 0, true)
    else
      var t := Run(available, held, messages[..|messages| - 1]);
      if !t.connected then t
      else
        var o := Step(t.available, t.held, messages[|messages| - 1]);
        Transcript(o.available, o.held, t.sent + Sent(o.reply), t.consumed + 1, o.continues)
  }

  /** A loop that still reads handles the next message with one Step. */
  lemma RunExtend(available: int, held: bool, messages: seq<string>, i: nat)
    requires i < |messages|
    requires Run(available, held, messages[..i]).connected
    ensures var t := Run(available, held, messages[..i]);
      var o := Step(t.available, t.held, messages[i]);
      Run(available, held, messages[..i + 1])
        == Transcript(o.available, o.held, t.sent + Sent(o.reply), t.consumed + 1, o.continues)
  {
    assert messages[..i + 1][..i] == messages[..i];
  }

  /** A loop that has ended reads nothing more. */
  lemma {:induction false} RunStaysClosed(available: int, held: bool, messages: seq<string>, i: nat)
    requires i <= |messages|
    requires !Run(available, held, messages[..i]).connected
    ensures Run(available, held, messages) == Run(available, held, messages[..i])
    decreases |messages| - i
  {
    if i < |messages| {
      var front := messages[..|messages| - 1];
      assert front[..i] == messages[..i];
      RunStaysClosed(available, held, front, i);
    } else {
      assert messages[..i] == messages;
    }
  }

  /** The loop reads messages in order with at most one reply per message,
      and reads all of them while it goes on. */
  lemma {:induction false} RunConsumes(available: int, held: bool, messages: seq<string>)
    ensures var t := Run(available, held, messages);
      && |t.sent| <= t.consumed <= |messages|
      && (t.connected ==> t.consumed == |messages| == |t.sent|)
    decreases |messages|
  {
    if messages != [] {
      RunConsumes(available, held, messages[..|messages| - 1]);
    }
  }

  /** Over a whole loop, free spots plus the connection's holding stay
      constant, and the count never goes negative. */
  lemma {:induction false} RunConserves(available: int, held: bool, messages: seq<string>)
    ensures var t := Run(available, held, messages);
      && t.available + Holding(t.held) == available + Holding(held)
      && (0 <= available ==> 0 <= t.available)
    decreases |messages|
  {
    if messages != [] {
      var t := Run(available, held, messages[..|messages| - 1]);
      RunConserves(available, held, messages[..|messages| - 1]);
      StepConserves(t.available, t.held, messages[|messages| - 1]);
    }
  }

  /** Where a burst of acquire requests leaves the pool. */
  datatype Round = Round(available: int, replies: seq<string>)

  /** `contenders` connections that hold nothing each send one acquire; the
      lock admits them one at a time. MixedRound and BystandersDoNotMatter
      show that other connections' queries and unrecognised commands, falling
      anywhere in between, leave the outcome as it is. */
  function AcquireRound(available: int, contenders: nat): Round
    decreases contenders
  {
    if contenders == 0 then Round(available, [])
    else
      var o := Step(available, false, AcquireToken);
      var rest := AcquireRound(o.available, contenders - 1);
      Round(rest.available, Sent(o.reply) + rest.replies)
  }

  function Count(replies: seq<string>, token: string): nat
  {
    if replies == [] then 0
    else (if replies[0] == token then 1 else 0) + Count(replies[1..], token)
  }

  function Min(a: int, b: int): int
  {
    if a <= b then a else b
  }

  lemma QueryTokenIsStripped()
    ensures Strip(QueryToken) == QueryToken
  {
    StripPadded([], QueryToken, []);
    assert [] + QueryToken + [] == QueryToken;
  }

  lemma AcquireTokenIsStripped()
    ensures Strip(AcquireToken) == AcquireToken
  {
    StripPadded([], AcquireToken, []);
    assert [] + AcquireToken + [] == AcquireToken;
  }

  lemma ReleaseTokenIsStripped()
    ensures Strip(ReleaseToken) == ReleaseToken
  {
    StripPadded([], ReleaseToken, []);
    assert [] + ReleaseToken + [] == ReleaseToken;
  }

  /** An arrival at the lock during a burst of acquires: one of the
      contenders, or another connection sending some message. */
  datatype Arrival = Contender | Bystander(held: bool, message: string)

  /** A bystander that neither acquires, releases nor hangs up. */
  predicate Passive(a: Arrival)
  {
    a.Bystander? ==> a.message != [] && Strip(a.message) != AcquireToken && Strip(a.message) != ReleaseToken
  }

  function Contenders(schedule: seq<Arrival>): nat
  {
    if schedule == [] then 0
    else (if schedule[0].Contender? then 1 else 0) + Contenders(schedule[1..])
  }

  /** The burst with bystanders interleaved, in the order the lock admits
      them; the replies are the contenders' only. */
  function MixedRound(available: int, schedule: seq<Arrival>): Round
    decreases |schedule|
  {
    if schedule == [] then Round(available, [])
    else
      match schedule[0]
      case Contender =>
        var o := Step(available, false, AcquireToken);
        var rest := MixedRound(o.available, schedule[1..]);
        Round(rest.available, Sent(o.reply) + rest.replies)
      case Bystander(held, message) =>
        MixedRound(Step(available, held, message).available, schedule[1..])
  }

  /** Passive bystanders change neither the contenders' replies nor the
      final count, wherever they fall. */
  lemma {:induction false} BystandersDoNotMatter(available: int, schedule: seq<Arrival>)
    requires forall k :: 0 <= k < |schedule| ==> Passive(schedule[k])
    ensures MixedRound(available, schedule) == AcquireRound(available, Contenders(schedule))
    decreases |schedule|
  {
    if schedule != [] {
      assert forall k :: 0 <= k < |schedule| - 1 ==> schedule[1..][k] == schedule[k + 1];
      match schedule[0]
      case Contender =>
        AcquireTokenIsStripped();
        var o := Step(available, false, AcquireToken);
        BystandersDoNotMatter(o.available, schedule[1..]);
      case Bystander(held, message) =>
        assert Passive(schedule[0]);
        assert Step(available, held, message).available == available;
        BystandersDoNotMatter(available, schedule[1..]);
    }
  }

  /** With k free spots and n contenders, exactly min(k, n) get "1", the rest
      get "0", and the pool loses exactly the spots handed out. */
  lemma {:induction false} AcquireRoundWinners(available: nat, contenders: nat)
    ensures var r := AcquireRound(available, contenders);
      && |r.replies| == contenders
      && Count(r.replies, "1") == Min(available, contenders)
      && Count(r.replies, "0") == contenders - Min(available, contenders)
      && r.available == available - Min(available, contenders)
    decreases contenders
  {
    if contenders > 0 {
      AcquireTokenIsStripped();
      var o := Step(available, false, AcquireToken);
      AcquireStep(available, false, AcquireToken);
      AcquireRoundWinners(o.available, contenders - 1);
      var rest := AcquireRound(o.available, contenders - 1);
      var replies := Sent(o.reply) + rest.replies;
      assert replies[1..] == rest.replies;
    }
  }
}
