/** Which bots send audio: one at a time in turn, or all that can. */
module AudioRotation {
  import opened Sequences
  import opened Division

  /** Go's remainder, which has the sign of the dividend. */
  function Rem(a: int, b: nat): int
    requires b > 0
  {
    if a >= 0 then a % b else -((-a) % b)
  }

  /** How many bots come before this one when counting on from the current one. */
  function Wait(bots: nat, current: int, bot: int): nat
    requires bots > 0
  {
    (bot - current - 1) % bots
  }

  predicate IsBot(bots: nat, bot: int) {
    0 <= bot < bots
  }

  /** After `current`, at offset `offset`, comes the bot that waits `offset - 1` turns. */
  lemma OffsetIsWait(bots: nat, current: int, offset: nat)
    requires bots > 0 && current >= -1 && 1 <= offset <= bots
    ensures var idx := Rem(current + offset, bots); IsBot(bots, idx) && Wait(bots, current, idx) == offset - 1
  {
    var idx := (current + offset) % bots;
    var k := (current + offset) / bots;
    assert idx - current - 1 == (offset - 1) + bots * (-k);
    ModUnique(idx - current - 1, bots, offset - 1, -k);
  }

  /** Two bots that wait equally long are the same bot. */
  lemma WaitInjective(bots: nat, current: int, x: int, y: int)
    requires bots > 0 && IsBot(bots, x) && IsBot(bots, y) && Wait(bots, current, x) == Wait(bots, current, y)
    ensures x == y
  {
    var a, b := x - current - 1, y - current - 1;
    var j, k := a / bots, b / bots;
    assert a == bots * j + a % bots && b == bots * k + b % bots;
    assert bots * (j - k) == bots * j - bots * k;
    SmallMultiple(bots, j - k);
  }

  /** The active bot that waits least is the one whose turn it is. */
  ghost predicate NextTurn(bots: nat, active: seq<int>, current: int, next: int) {
    && IsBot(bots, next) && next in active
    && forall b :: b in active && IsBot(bots, b) ==> Wait(bots, current, next) <= Wait(bots, current, b)
  }

  /** Who is heard in a round: the bot whose turn it is, or every active one when there are no turns. */
  method PickAudible(bots: nat, active: seq<int>, current: int, allAudible: bool) returns (audible: set<int>, next: int)
    requires current >= -1
    ensures allAudible ==> audible == (set b | b in active) && next == current
    ensures !allAudible && (exists b :: b in active && IsBot(bots, b)) ==>
      audible == {next} && NextTurn(bots, active, current, next)
    ensures !allAudible && !(exists b :: b in active && IsBot(bots, b)) ==> audible == {} && next == -1
  {
    var isActive: set<int> := {};
    for n := 0 to |active|
      invariant isActive == set b | b in active[..n]
    {
      isActive := isActive + {active[n]};
      assert active[..n + 1] == active[..n] + [active[n]];
    }
    assert active[..|active|] == active;
    if allAudible {
      return isActive, current;
    }
    for offset := 1 to bots + 1
      invariant forall b :: b in active && IsBot(bots, b) ==> Wait(bots, current, b) >= offset - 1
    {
      var idx := Rem(current + offset, bots);
      OffsetIsWait(bots, current, offset);
      if idx in isActive {
        return {idx}, idx;
      }
      forall b | b in active && IsBot(bots, b) ensures Wait(bots, current, b) >= offset {
        if Wait(bots, current, b) == offset - 1 {
          WaitInjective(bots, current, b, idx);
        }
      }
    }
    return {}, -1;
  }

  // ----- rounds

  datatype BotState = BotState(connected: bool, done: bool, audioReady: bool)

  /** What one round sees of the bots, and whether the wait after it is cancelled. */
  datatype Round = Round(bots: seq<BotState>, cancelled: bool)

  predicate IsActive(r: Round, b: int) {
    0 <= b < |r.bots| && r.bots[b].connected && !r.bots[b].done && r.bots[b].audioReady
  }

  ghost function ActiveSet(r: Round): set<int> {
    set b | 0 <= b < |r.bots| && IsActive(r, b)
  }

  predicate AllDone(r: Round) {
    forall b :: 0 <= b < |r.bots| ==> r.bots[b].done
  }

  /** The bot whose turn it is in a round of rotating mode; none when none is active. */
  ghost predicate Turn(r: Round, current: int, next: int) {
    if ActiveSet(r) == {} then next == current
    else next in ActiveSet(r) && forall b :: b in ActiveSet(r) ==>
      Wait(|r.bots|, current, next) <= Wait(|r.bots|, current, b)
  }

  /** The rounds of a rotation, with the current bot before each and after the last. */
  ghost predicate Rotates(bots: nat, rounds: seq<Round>, floor: seq<int>) {
    && |floor| == |rounds| + 1 && floor[0] == -1
    && forall k :: 0 <= k < |rounds| ==> |rounds[k].bots| == bots && Turn(rounds[k], floor[k], floor[k + 1])
  }

  method ActiveBots(r: Round) returns (active: seq<int>)
    ensures forall b :: b in active <==> b in ActiveSet(r)
  {
    active := [];
    for i := 0 to |r.bots|
      invariant forall b :: b in active <==> 0 <= b < i && IsActive(r, b)
    {
      if r.bots[i].connected && !r.bots[i].done && r.bots[i].audioReady {
        active := active + [i];
      }
    }
  }

  /** Sets the active bots' mute flags; the others keep theirs. */
  method SetMuted(muted: array<bool>, active: seq<int>, audible: set<int>)
    requires forall b :: b in active ==> 0 <= b < muted.Length
    modifies muted
    ensures forall b :: 0 <= b < muted.Length ==> muted[b] == if b in active then b !in audible else old(muted[b])
  {
    for n := 0 to |active|
      invariant forall b :: 0 <= b < muted.Length ==>
        muted[b] == if b in active[..n] then b !in audible else old(muted[b])
    {
      assert active[n] in active;
      muted[active[n]] := active[n] !in audible;
      assert active[..n + 1] == active[..n] + [active[n]];
    }
    assert active[..|active|] == active;
  }

  /** Mute flags before and after a round: of the active bots only the one whose turn it is is audible, or
      all of them are; the others keep their flags. */
  ghost predicate RoundSounds(r: Round, allAudible: bool, next: int, before: seq<bool>, after: seq<bool>) {
    && |before| == |after| == |r.bots|
    && forall b :: 0 <= b < |after| ==>
         after[b] == if r.bots[b].connected && !r.bots[b].done && r.bots[b].audioReady then !allAudible && b != next
                     else before[b]
  }

  /** The mute flags before each round and after the last. */
  ghost predicate Sounds(allAudible: bool, rounds: seq<Round>, floor: seq<int>, flags: seq<seq<bool>>) {
    && |flags| == |floor| == |rounds| + 1
    && forall k :: 0 <= k < |rounds| ==> RoundSounds(rounds[k], allAudible, floor[k + 1], flags[k], flags[k + 1])
  }

  /** Nothing rotates while all are audible. */
  ghost predicate Plays(bots: nat, allAudible: bool, rounds: seq<Round>, floor: seq<int>) {
    if allAudible then |floor| == |rounds| + 1 && forall k :: 0 <= k < |floor| ==> floor[k] == -1
    else Rotates(bots, rounds, floor)
  }

  ghost predicate NextRound(r: Round, allAudible: bool, current: int, next: int) {
    if allAudible then next == current else Turn(r, current, next)
  }

  lemma SoundsSnoc(allAudible: bool, rounds: seq<Round>, floor: seq<int>, flags: seq<seq<bool>>,
                   r: Round, next: int, after: seq<bool>)
    requires Sounds(allAudible, rounds, floor, flags) && RoundSounds(r, allAudible, next, Last(flags), after)
    ensures Sounds(allAudible, rounds + [r], floor + [next], flags + [after])
  {
    hide RoundSounds;
  }

  lemma PlaysSnoc(bots: nat, allAudible: bool, rounds: seq<Round>, floor: seq<int>, r: Round, next: int)
    requires Plays(bots, allAudible, rounds, floor) && |floor| == |rounds| + 1 && |r.bots| == bots
    requires NextRound(r, allAudible, Last(floor), next)
    ensures Plays(bots, allAudible, rounds + [r], floor + [next])
  {
    hide Turn;
  }

  method PlayRound(r: Round, allAudible: bool, current: int, muted: array<bool>) returns (next: int)
    requires muted.Length == |r.bots| && -1 <= current < |r.bots|
    modifies muted
    ensures -1 <= next < |r.bots| && NextRound(r, allAudible, current, next)
    ensures RoundSounds(r, allAudible, next, old(muted[..]), muted[..])
  {
    var active := ActiveBots(r);
    var audible, picked := PickAudible(|r.bots|, active, current, allAudible);
    if audible == {} {
      assert forall b :: b in ActiveSet(r) ==> b in active && IsBot(|r.bots|, b);
      assert allAudible ==> forall b :: b in active ==> b in audible;
      forall b | 0 <= b < |r.bots| ensures !(r.bots[b].connected && !r.bots[b].done && r.bots[b].audioReady) {
        assert b in ActiveSet(r) <==> IsActive(r, b);
      }
      return current;
    }
    next := picked;
    SetMuted(muted, active, audible);
    assert forall b :: IsActive(r, b) <==> b in active;
  }

  /** The rounds over what each sees of the bots, until all bots are done or a wait is cancelled; none
      when waiting for the gate is. `floor` is the current bot and `flags` the mute flags, before each round
      that was played and after the last one. */
  method RotateAudio(bots: nat, gateOpens: bool, allAudible: bool, rounds: seq<Round>, muted: array<bool>)
    returns (played: nat, ghost floor: seq<int>, ghost flags: seq<seq<bool>>)
    requires muted.Length == bots && forall r :: r in rounds ==> |r.bots| == bots
    modifies muted
    ensures played <= |rounds| && Plays(bots, allAudible, rounds[..played], floor)
    ensures Sounds(allAudible, rounds[..played], floor, flags)
    ensures flags[0] == old(muted[..]) && Last(flags) == muted[..]
    ensures !gateOpens ==> played == 0
    ensures gateOpens && played < |rounds| ==>
      (forall b :: b in rounds[played].bots ==> b.done) || (played > 0 && rounds[played - 1].cancelled)
    ensures forall k :: 0 <= k < played ==> !AllDone(rounds[k]) && (k < played - 1 ==> !rounds[k].cancelled)
  {
    hide RoundSounds, NextRound;
    var current := -1;
    floor, flags := [current], [muted[..]];
    played := 0;
    if !gateOpens {
      return;
    }
    while played < |rounds|
      invariant played <= |rounds| && -1 <= current < bots && |floor| == played + 1 && Last(floor) == current
      invariant Plays(bots, allAudible, rounds[..played], floor) && Sounds(allAudible, rounds[..played], floor, flags)
      invariant flags[0] == old(muted[..]) && Last(flags) == muted[..]
      invariant forall k :: 0 <= k < played ==> !AllDone(rounds[k]) && !rounds[k].cancelled
    {
      hide Plays, Sounds;
      var r := rounds[played];
      assert r in rounds && rounds[..played + 1] == rounds[..played] + [r];
      if AllDone(r) {
        return;
      }
      current := PlayRound(r, allAudible, current, muted);
      PlaysSnoc(bots, allAudible, rounds[..played], floor, r, current);
      SoundsSnoc(allAudible, rounds[..played], floor, flags, r, current, muted[..]);
      floor, flags := floor + [current], flags + [muted[..]];
      played := played + 1;
      if r.cancelled {
        return;
      }
    }
  }

  /** A bot active in no round keeps its mute flag. */
  lemma {:induction false} IdleKeepsFlag(allAudible: bool, rounds: seq<Round>, floor: seq<int>,
                                         flags: seq<seq<bool>>, bot: nat, n: nat)
    requires Sounds(allAudible, rounds, floor, flags) && n <= |rounds| && bot < |flags[0]|
    requires forall k :: 0 <= k < n ==> !IsActive(rounds[k], bot)
    ensures |flags[n]| == |flags[0]| && flags[n][bot] == flags[0][bot]
  {
    if n > 0 {
      IdleKeepsFlag(allAudible, rounds, floor, flags, bot, n - 1);
      assert RoundSounds(rounds[n - 1], allAudible, floor[n - 1 + 1], flags[n - 1], flags[n - 1 + 1]);
    }
  }

  // ----- fairness

  predicate HasTurn(floor: seq<int>, k: int, bot: int) {
    0 <= k < |floor| - 1 && floor[k + 1] == bot
  }

  /** When another bot's turn comes first, the wait of every bot behind it gets shorter by at least one. */
  lemma WaitShrinks(bots: nat, current: int, next: int, bot: int)
    requires bots > 0 && IsBot(bots, next) && IsBot(bots, bot) && next != bot
    requires Wait(bots, current, next) <= Wait(bots, current, bot)
    ensures Wait(bots, next, bot) < Wait(bots, current, bot)
  {
    if Wait(bots, current, next) == Wait(bots, current, bot) {
      WaitInjective(bots, current, next, bot);
    }
    var p, q := Wait(bots, current, next), Wait(bots, current, bot);
    var k, l := (next - current - 1) / bots, (bot - current - 1) / bots;
    assert bot - next - 1 == (q - p - 1) + bots * (l - k);
    ModUnique(bot - next - 1, bots, q - p - 1, l - k);
  }

  /** A bot that stays active has its turn within as many rounds as it has to wait, and one. */
  lemma {:induction false} TurnComes(bots: nat, rounds: seq<Round>, floor: seq<int>, start: nat, bot: int)
    requires Rotates(bots, rounds, floor) && IsBot(bots, bot) && start < |rounds|
    requires start + Wait(bots, floor[start], bot) < |rounds|
    requires forall k :: start <= k <= start + Wait(bots, floor[start], bot) ==> IsActive(rounds[k], bot)
    ensures exists k :: start <= k <= start + Wait(bots, floor[start], bot) && HasTurn(floor, k, bot)
    decreases |rounds| - start
  {
    assert IsActive(rounds[start], bot) && bot in ActiveSet(rounds[start]);
    assert Turn(rounds[start], floor[start], floor[start + 1]);
    if floor[start + 1] == bot {
      assert HasTurn(floor, start, bot);
    } else {
      WaitShrinks(bots, floor[start], floor[start + 1], bot);
      TurnComes(bots, rounds, floor, start + 1, bot);
    }
  }

  /** The bot's mute flag is clear after round k. */
  predicate IsAudible(flags: seq<seq<bool>>, k: int, bot: int) {
    0 <= k < |flags| - 1 && 0 <= bot < |flags[k + 1]| && !flags[k + 1][bot]
  }

  /** Of the bots active in round k only this one is audible. */
  ghost predicate IsAudibleAlone(rounds: seq<Round>, flags: seq<seq<bool>>, k: int, bot: int) {
    && 0 <= k < |rounds| && IsAudible(flags, k, bot)
    && forall b :: IsActive(rounds[k], b) && IsAudible(flags, k, b) ==> b == bot
  }

  lemma TurnSounds(bots: nat, rounds: seq<Round>, floor: seq<int>, flags: seq<seq<bool>>, k: int, bot: int)
    requires Rotates(bots, rounds, floor) && Sounds(false, rounds, floor, flags) && HasTurn(floor, k, bot)
    requires IsActive(rounds[k], bot)
    ensures IsAudibleAlone(rounds, flags, k, bot)
  {
    assert RoundSounds(rounds[k], false, floor[k + 1], flags[k], flags[k + 1]);
  }

  /** Fairness: in any `bots` rounds in a row in all of which a bot is active, it is audible in one, and
      there alone among the active, whatever the others do. */
  lemma RotationIsFair(bots: nat, rounds: seq<Round>, floor: seq<int>, flags: seq<seq<bool>>, start: nat, bot: int)
    requires Rotates(bots, rounds, floor) && Sounds(false, rounds, floor, flags) && IsBot(bots, bot)
    requires start + bots <= |rounds| && forall k :: start <= k < start + bots ==> IsActive(rounds[k], bot)
    ensures exists k :: start <= k < start + bots && HasTurn(floor, k, bot) && IsAudibleAlone(rounds, flags, k, bot)
  {
    hide Sounds;
    TurnComes(bots, rounds, floor, start, bot);
    var k :| start <= k <= start + Wait(bots, floor[start], bot) && HasTurn(floor, k, bot);
    TurnSounds(bots, rounds, floor, flags, k, bot);
  }

  /** With every bot active the next one in index order has its turn. */
  lemma NextInOrder(bots: nat, rounds: seq<Round>, floor: seq<int>, k: nat)
    requires Rotates(bots, rounds, floor) && bots > 0 && k < |rounds|
    requires forall b :: IsBot(bots, b) ==> IsActive(rounds[k], b)
    ensures floor[k + 1] == (floor[k] + 1) % bots
  {
    FloorInRange(bots, rounds, floor, k);
    OffsetIsWait(bots, floor[k], 1);
    var idx := (floor[k] + 1) % bots;
    assert IsBot(bots, idx) && idx in ActiveSet(rounds[k]);
    assert Turn(rounds[k], floor[k], floor[k + 1]);
    WaitInjective(bots, floor[k], floor[k + 1], idx);
  }

  /** The bound is sharp: when every bot is always active, the one that has just had its turn has the
      next one exactly `bots` rounds later. */
  lemma {:induction false} RoundRobin(bots: nat, rounds: seq<Round>, floor: seq<int>, start: nat, later: nat)
    requires Rotates(bots, rounds, floor) && bots > 0 && start + later <= |rounds|
    requires forall k, b :: 0 <= k < |rounds| && IsBot(bots, b) ==> IsActive(rounds[k], b)
    ensures floor[start + later] == if later == 0 then floor[start] else (floor[start] + later) % bots
  {
    if later > 0 {
      RoundRobin(bots, rounds, floor, start, later - 1);
      NextInOrder(bots, rounds, floor, start + later - 1);
      if later > 1 {
        NextModulo(floor[start] + later - 1, bots);
      }
    }
  }

  lemma NextModulo(m: int, n: nat)
    requires n > 0
    ensures (m % n + 1) % n == (m + 1) % n
  {
    var q, r := m / n, m % n;
    assert m == n * q + r && n * (q + 1) == n * q + n;
    if r + 1 < n {
      ModUnique(m + 1, n, r + 1, q);
      ModUnique(r + 1, n, r + 1, 0);
    } else {
      ModUnique(m + 1, n, 0, q + 1);
      ModUnique(r + 1, n, 0, 1);
    }
  }

  lemma {:induction false} FloorInRange(bots: nat, rounds: seq<Round>, floor: seq<int>, k: nat)
    requires Rotates(bots, rounds, floor) && k <= |rounds|
    ensures -1 <= floor[k] < bots
  {
    if k > 0 {
      FloorInRange(bots, rounds, floor, k - 1);
      assert Turn(rounds[k - 1], floor[k - 1], floor[k - 1 + 1]);
    }
  }
}
