/**
 * The "Cyber Runner" mini game (components/CyberGame.tsx).
 *
 * Positions are percentages of the play field: `x` runs left to right,
 * `y` top to bottom. The animation-frame callback is modelled as the pure
 * function `Frame`; the `Math.random()` draws it makes are passed in.
 */
module CyberGame {
  import opened Random

  datatype ItemKind = Node | Bug

  datatype GameItem = GameItem(id: real, x: real, y: real, kind: ItemKind)

  datatype GameState = GameState(
    playerX: real,
    score: int,
    items: seq<GameItem>,
    isGameOver: bool,
    gameStarted: bool)

  /** The random draws one animation frame consumes. */
  datatype FrameDraws = FrameDraws(spawn: real, id: real, x: real, kind: real)
  {
    /** Every draw is a `Math.random()` value. */
    predicate Valid() {
      IsDraw(spawn) && IsDraw(id) && IsDraw(x) && IsDraw(kind)
    }
  }

  /** The state the component mounts with: player centred, nothing started. */
  const Initial: GameState := GameState(50.0, 0, [], false, false)

  /** A new item enters above the field at a random column in [5, 95). */
  function SpawnItem(idDraw: real, xDraw: real, kindDraw: real): (item: GameItem)
    requires IsDraw(xDraw)
    ensures item.y == -10.0
    ensures 5.0 <= item.x < 95.0
    ensures item.kind == Node <==> kindDraw > 0.3
    ensures item.id == idDraw
  {
    GameItem(idDraw, xDraw * 90.0 + 5.0, -10.0, if kindDraw > 0.3 then Node else Bug)
  }

  /** How far every item falls in one frame; it grows with the score and does not depend on elapsed time. */
  function Speed(score: int): real {
    0.5 * (1.0 + score as real / 10.0)
  }

  /** A non-negative score never slows the items below half a percent per frame. */
  lemma SpeedAtLeastHalf(score: int)
    requires score >= 0
    ensures Speed(score) >= 0.5
    ensures Speed(score + 1) > Speed(score)
  {
  }

  /** Every item moved down by `dy`, nothing else about it changed. */
  function Moved(items: seq<GameItem>, dy: real): (r: seq<GameItem>)
    ensures |r| == |items|
    ensures forall i | 0 <= i < |r| :: r[i] == items[i].(y := items[i].y + dy)
  {
    seq(|items|, i requires 0 <= i < |items| => items[i].(y := items[i].y + dy))
  }

  function Abs(d: real): real {
    if d < 0.0 then -d else d
  }

  /** The collision window: the item is in the player's row band and within 10 of the player's column. */
  predicate IsHit(item: GameItem, playerX: real) {
    85.0 < item.y < 95.0 && Abs(item.x - playerX) < 10.0
  }

  /** What the frame's filter keeps: items that were not hit and are still on screen. */
  predicate Keeps(item: GameItem, playerX: real) {
    !IsHit(item, playerX) && item.y < 100.0
  }

  /** The items the filter keeps, in their original order. */
  function Survivors(items: seq<GameItem>, playerX: real): (r: seq<GameItem>)
    ensures |r| <= |items|
    ensures forall it | it in r :: it in items && Keeps(it, playerX)
    ensures forall it | it in items && Keeps(it, playerX) :: it in r
  {
    if items == [] then []
    else
      var rest := Survivors(items[1..], playerX);
      assert forall it | it in items :: it == items[0] || it in items[1..];
      if Keeps(items[0], playerX) then [items[0]] + rest else rest
  }

  /** Filtering a concatenation filters each part: the survivors keep their original order. */
  lemma {:induction false} SurvivorsAppend(a: seq<GameItem>, b: seq<GameItem>, playerX: real)
    ensures Survivors(a + b, playerX) == Survivors(a, playerX) + Survivors(b, playerX)
  {
    if a == [] {
      assert a + b == b;
    } else {
      assert (a + b)[1..] == a[1..] + b;
      SurvivorsAppend(a[1..], b, playerX);
    }
  }

  /** The number of node items in the collision window. */
  function NodeHits(items: seq<GameItem>, playerX: real): (n: nat)
    ensures n <= |items|
    ensures n > 0 <==> exists i | 0 <= i < |items| :: items[i].kind == Node && IsHit(items[i], playerX)
  {
    if items == [] then 0
    else
      var rest := NodeHits(items[1..], playerX);
      assert forall i | 1 <= i < |items| :: items[i] == items[1..][i - 1];
      assert rest > 0 ==> exists i | 0 <= i < |items| - 1 :: items[1..][i].kind == Node && IsHit(items[1..][i], playerX);
      (if items[0].kind == Node && IsHit(items[0], playerX) then 1 else 0) + rest
  }

  /** Node hits add up over a concatenation: each node item is counted exactly once. */
  lemma {:induction false} NodeHitsAppend(a: seq<GameItem>, b: seq<GameItem>, playerX: real)
    ensures NodeHits(a + b, playerX) == NodeHits(a, playerX) + NodeHits(b, playerX)
  {
    if a == [] {
      assert a + b == b;
    } else {
      assert (a + b)[1..] == a[1..] + b;
      NodeHitsAppend(a[1..], b, playerX);
    }
  }

  /** Whether some bug item is in the collision window. */
  predicate BugHit(items: seq<GameItem>, playerX: real) {
    exists i | 0 <= i < |items| :: items[i].kind == Bug && IsHit(items[i], playerX)
  }

  /** The items the collision test sees: the moved items, then the spawned one when the spawn draw is under 0.05. */
  function Candidates(prev: GameState, draws: FrameDraws): seq<GameItem>
    requires draws.Valid()
  {
    Moved(prev.items, Speed(prev.score))
      + (if draws.spawn < 0.05 then [SpawnItem(draws.id, draws.x, draws.kind)] else [])
  }

  /** One animation frame. */
  function Frame(prev: GameState, draws: FrameDraws): (next: GameState)
    requires draws.Valid()
    ensures prev.isGameOver || !prev.gameStarted ==> next == prev
    ensures next.playerX == prev.playerX && next.gameStarted == prev.gameStarted
    ensures next.score >= prev.score
    ensures !prev.isGameOver && next.isGameOver ==> next.items == [] && next.score == prev.score
    ensures prev.gameStarted && !prev.isGameOver && !next.isGameOver ==>
              && next.score == prev.score + NodeHits(Candidates(prev, draws), prev.playerX)
              && next.items == Survivors(Candidates(prev, draws), prev.playerX)
    ensures prev.gameStarted && !prev.isGameOver ==>
              (next.isGameOver <==> BugHit(Candidates(prev, draws), prev.playerX))
  {
    if prev.isGameOver || !prev.gameStarted then prev
    else
      var candidates := Candidates(prev, draws);
      if BugHit(candidates, prev.playerX) then
        prev.(isGameOver := true, items := [])
      else
        prev.(score := prev.score + NodeHits(candidates, prev.playerX),
              items := Survivors(candidates, prev.playerX))
  }

  /** A bug in the collision window ends the game and keeps the score, even when nodes were caught in the same frame. */
  lemma BugHitEndsGame(prev: GameState, draws: FrameDraws, i: nat)
    requires draws.Valid()
    requires prev.gameStarted && !prev.isGameOver
    requires i < |Candidates(prev, draws)|
    requires Candidates(prev, draws)[i].kind == Bug && IsHit(Candidates(prev, draws)[i], prev.playerX)
    ensures Frame(prev, draws).isGameOver
    ensures Frame(prev, draws).items == []
    ensures Frame(prev, draws).score == prev.score
  {
  }

  /** No item caught in the collision window survives the frame, and neither does anything that fell past the bottom. */
  lemma {:induction false} HitItemsNeverSurvive(prev: GameState, draws: FrameDraws)
    requires draws.Valid()
    ensures forall it | it in Frame(prev, draws).items ::
              prev.gameStarted && !prev.isGameOver ==> !IsHit(it, prev.playerX) && it.y < 100.0
  {
  }

  /** `x` limited to the field's inner band [5, 95]. */
  function Clamp(x: real): (r: real)
    ensures 5.0 <= r <= 95.0
    ensures 5.0 <= x <= 95.0 ==> r == x
    ensures x < 5.0 ==> r == 5.0
    ensures x > 95.0 ==> r == 95.0
  {
    if x > 95.0 then 95.0 else if x < 5.0 then 5.0 else x
  }

  /** The pointer moved to column `x` (a percentage of the field width); ignored once the game is over. */
  function PointerMove(s: GameState, x: real): (r: GameState)
    ensures s.isGameOver ==> r == s
    ensures !s.isGameOver ==> r == s.(playerX := Clamp(x))
  {
    if s.isGameOver then s else s.(playerX := Clamp(x))
  }

  /** Start (or restart) a run: player centred, score 0, no items. */
  function StartGame(): (r: GameState)
    ensures r.gameStarted && !r.isGameOver
    ensures r.score == 0 && r.items == [] && r.playerX == 50.0
  {
    GameState(50.0, 0, [], false, true)
  }

  /** Everything that can happen to the game. */
  datatype GameEvent = Tick(draws: FrameDraws) | Pointer(x: real) | Start

  predicate ValidEvent(e: GameEvent) {
    e.Tick? ==> e.draws.Valid()
  }

  function Apply(s: GameState, e: GameEvent): GameState
    requires ValidEvent(e)
  {
    match e
    case Tick(draws) => Frame(s, draws)
    case Pointer(x) => PointerMove(s, x)
    case Start => StartGame()
  }

  /** What holds of every state the game can reach. */
  ghost predicate Inv(s: GameState) {
    && 5.0 <= s.playerX <= 95.0
    && s.score >= 0
    && (s.isGameOver ==> s.gameStarted && s.items == [])
    && (!s.gameStarted ==> s.score == 0 && s.items == [])
    && (forall it | it in s.items :: 5.0 <= it.x < 95.0 && it.y < 100.0)
  }

  /** Every event keeps the invariant. */
  lemma {:induction false} ApplyKeepsInv(s: GameState, e: GameEvent)
    requires Inv(s) && ValidEvent(e)
    ensures Inv(Apply(s, e))
  {
    match e
    case Tick(draws) =>
      if s.gameStarted && !s.isGameOver {
        var c := Candidates(s, draws);
        forall it | it in c ensures 5.0 <= it.x < 95.0 {
          var m := Moved(s.items, Speed(s.score));
          if it in m {
            var i :| 0 <= i < |m| && m[i] == it;
            assert s.items[i] in s.items;
          }
        }
      }
    case Pointer(x) =>
    case Start =>
  }

  /** The state after a sequence of events from the initial one. */
  function Run(events: seq<GameEvent>): GameState
    requires forall i | 0 <= i < |events| :: ValidEvent(events[i])
  {
    if events == [] then Initial
    else Apply(Run(events[..|events| - 1]), events[|events| - 1])
  }

  /** Every reachable state keeps the invariant: the player stays in [5, 95], the score never goes negative, a lost game has no items. */
  lemma {:induction false} RunKeepsInv(events: seq<GameEvent>)
    requires forall i | 0 <= i < |events| :: ValidEvent(events[i])
    ensures Inv(Run(events))
  {
    if events != [] {
      RunKeepsInv(events[..|events| - 1]);
      ApplyKeepsInv(Run(events[..|events| - 1]), events[|events| - 1]);
    }
  }
}
