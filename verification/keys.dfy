/**
 The key-release handler of the level: arrow keys extend the path, Enter
 commits it, Backspace resets the whole game and camera state.
 */
module Keys {
  import opened Grid
  import opened State

  datatype Key = Arrow(dir: Direction) | Enter | Backspace | Other

  /** The conditions under which an arrow key extends the path. */
  predicate MoveAccepted(s: GameState, d: Direction) {
    && Allowed(s.current, d)
    && Target(s.current, d) !in s.path
    && Target(s.current, d) !in BlockedTiles
  }

  /** Appending a free, unblocked neighbour of the last tile keeps a path well formed. */
  lemma AppendKeepsPathValid(p: seq<int>, t: int)
    ensures ValidPath(p) && p[|p| - 1] != Goal && GridAdjacent(p[|p| - 1], t) && t !in p && t !in BlockedTiles
      ==> ValidPath(p + [t])
  {
    if ValidPath(p) && p[|p| - 1] != Goal && GridAdjacent(p[|p| - 1], t) && t !in p && t !in BlockedTiles {
      AppendToValidPath(p, t);
    }
  }

  /** The appended tile is on the grid, new, unblocked and next to the old last tile, which was not the goal. */
  lemma AppendToValidPath(p: seq<int>, t: int)
    requires ValidPath(p) && p[|p| - 1] != Goal && GridAdjacent(p[|p| - 1], t) && t !in p && t !in BlockedTiles
    ensures ValidPath(p + [t])
  {
    var p2 := p + [t];
    assert InGrid(t);
    forall i | 0 <= i < |p2|
      ensures InGrid(p2[i]) && p2[i] !in BlockedTiles
    {
      if i < |p| {
        assert p2[i] == p[i];
      }
    }
    forall i, j | 0 <= i < j < |p2|
      ensures p2[i] != p2[j]
    {
      assert p2[i] == p[i];
    }
    forall i | 0 <= i < |p2| - 1
      ensures GridAdjacent(p2[i], p2[i + 1]) && p2[i] != Goal
    {
      assert p2[i] == p[i];
    }
  }

  /**
   One key release. An arrow key moves the cursor one tile and appends the new
   tile to the path when the move rule allows the direction and the target is
   neither selected already nor blocked; otherwise it does nothing. Enter
   starts the train when the cursor is on the goal. Backspace restores the
   initial state. Other keys do nothing.
   */
  function Step(s: GameState, k: Key): (r: GameState)
    ensures Valid(s) ==> Valid(r)
    ensures k.Arrow? ==> (r != s <==> MoveAccepted(s, k.dir))
    ensures k.Arrow? && r != s ==>
      && r.current == Target(s.current, k.dir)
      && GridAdjacent(s.current, r.current)
      && r.path == s.path + [r.current]
      && r == s.(current := r.current, path := r.path)
    ensures k == Enter ==> r == s.(driving := r.driving) && (r.driving <==> s.driving || s.current == Goal)
    ensures k == Backspace ==> r == Initial()
    ensures k == Other ==> r == s
  {
    match k
    case Arrow(d) =>
      if Allowed(s.current, d) then
        var t := Target(s.current, d);
        if t !in s.path && t !in BlockedTiles then
          AppendKeepsPathValid(s.path, t);
          s.(current := t, path := s.path + [t])
        else s
      else s
    case Enter =>
      if s.current == Goal then s.(driving := true) else s
    case Backspace =>
      Initial()
    case Other =>
      s
  }

  /** Releasing a sequence of keys in order. */
  function Run(s: GameState, keys: seq<Key>): (r: GameState)
    ensures Valid(s) ==> Valid(r)
    decreases |keys|
  {
    if |keys| == 0 then s else Run(Step(s, keys[0]), keys[1..])
  }

  /** Releasing two runs of keys one after the other. */
  lemma {:induction false} RunConcat(s: GameState, a: seq<Key>, b: seq<Key>)
    ensures Run(s, a + b) == Run(Run(s, a), b)
    decreases |a|
  {
    if |a| == 0 {
      assert a + b == b;
    } else {
      assert (a + b)[0] == a[0] && (a + b)[1..] == a[1..] + b;
      RunConcat(Step(s, a[0]), a[1..], b);
    }
  }

  /** Releasing keys and then one more key. */
  lemma RunSnoc(s: GameState, keys: seq<Key>, k: Key)
    ensures Run(s, keys + [k]) == Step(Run(s, keys), k)
  {
    RunConcat(s, keys, [k]);
    assert [k][1..] == [];
  }

  /** `keys` are the arrow keys that walk along path `p`, one per leg. */
  predicate WalksAlong(keys: seq<Key>, p: seq<int>) {
    && |p| >= 1 && |keys| == |p| - 1
    && forall i :: 0 <= i < |keys| ==> keys[i] == Arrow(DirectionTo(p[i], p[i + 1]))
  }

  /** Every non-empty path has keys that walk along it. */
  function KeysFor(p: seq<int>): (keys: seq<Key>)
    requires |p| >= 1
    ensures WalksAlong(keys, p)
    decreases |p|
  {
    if |p| == 1 then [] else KeysFor(p[..|p| - 1]) + [Arrow(DirectionTo(p[|p| - 2], p[|p| - 1]))]
  }

  /** Dropping the last leg: the keys without their last one walk the path without its last tile. */
  lemma WalksAlongPrefix(keys: seq<Key>, p: seq<int>)
    requires WalksAlong(keys, p) && |p| >= 2
    ensures WalksAlong(keys[..|keys| - 1], p[..|p| - 1])
    ensures keys == keys[..|keys| - 1] + [Arrow(DirectionTo(p[|p| - 2], p[|p| - 1]))]
  {
    var q, ks := p[..|p| - 1], keys[..|keys| - 1];
    forall i | 0 <= i < |ks|
      ensures ks[i] == Arrow(DirectionTo(q[i], q[i + 1]))
    {
      assert ks[i] == keys[i] && q[i] == p[i] && q[i + 1] == p[i + 1];
    }
  }

  /**
   Every well-formed path can be laid: walking it with the arrow keys from the
   initial state accepts every move and ends with exactly that path selected.
   */
  lemma {:induction false} LayPath(p: seq<int>, keys: seq<Key>)
    requires ValidPath(p) && WalksAlong(keys, p)
    ensures Run(Initial(), keys) == Initial().(current := p[|p| - 1], path := p)
    decreases |p|
  {
    if |p| == 1 {
      assert p == [Start] && keys == [];
    } else {
      var q, ks := p[..|p| - 1], keys[..|keys| - 1];
      var a, b := p[|p| - 2], p[|p| - 1];
      PrefixKeepsPathValid(p, |p| - 1);
      WalksAlongPrefix(keys, p);
      LayPath(q, ks);
      RunSnoc(Initial(), ks, Arrow(DirectionTo(a, b)));
      LayLastLeg(p);
    }
  }

  /** The arrow key of the last leg of a well-formed path extends its prefix to the whole path. */
  lemma LayLastLeg(p: seq<int>)
    requires ValidPath(p) && |p| >= 2
    ensures
      var a, b := p[|p| - 2], p[|p| - 1];
      Step(Initial().(current := a, path := p[..|p| - 1]), Arrow(DirectionTo(a, b))) == Initial().(current := b, path := p)
  {
    var q := p[..|p| - 1];
    var a, b := p[|p| - 2], p[|p| - 1];
    var sq := Initial().(current := a, path := q);
    assert GridAdjacent(a, b) && a != Goal;
    assert b !in q by {
      forall i | 0 <= i < |q|
        ensures q[i] != b
      {
        assert q[i] == p[i];
      }
    }
    assert MoveAccepted(sq, DirectionTo(a, b));
    assert q + [b] == p;
  }

  /** Every well-formed path is reachable: its own arrow keys lay it from the initial state. */
  lemma PathIsReachable(p: seq<int>)
    ensures ValidPath(p) ==> Run(Initial(), KeysFor(p)) == Initial().(current := p[|p| - 1], path := p)
  {
    if ValidPath(p) {
      LayPath(p, KeysFor(p));
    }
  }

  /** A well-formed path that reaches the goal can be laid and committed. */
  lemma LayAndCommit(p: seq<int>, keys: seq<Key>)
    requires ValidPath(p) && p[|p| - 1] == Goal && WalksAlong(keys, p)
    ensures Run(Initial(), keys + [Enter]).path == p
    ensures Run(Initial(), keys + [Enter]).driving
  {
    LayPath(p, keys);
    RunSnoc(Initial(), keys, Enter);
  }

  /** Every state the key handler can produce from the initial state is valid. */
  lemma {:induction false} ReachableIsValid(keys: seq<Key>)
    ensures Valid(Run(Initial(), keys))
  {
  }

  /** Resetting twice is the same as resetting once, from any state. */
  lemma ResetIsIdempotent(s: GameState)
    ensures Step(Step(s, Backspace), Backspace) == Step(s, Backspace)
    ensures Step(s, Backspace).path == [Start] && !Step(s, Backspace).driving
  {
  }

  /** Once the train drives, every key except Backspace leaves the state unchanged. */
  lemma DrivingFreezesState(s: GameState, k: Key)
    requires Valid(s) && s.driving && k != Backspace
    ensures Step(s, k) == s
  {
  }

  /** While the train drives, no sequence of keys without Backspace changes anything. */
  lemma {:induction false} DrivingFreezesRun(s: GameState, keys: seq<Key>)
    requires Valid(s) && s.driving && Backspace !in keys
    ensures Run(s, keys) == s
    decreases |keys|
  {
    if |keys| > 0 {
      DrivingFreezesState(s, keys[0]);
      assert Backspace !in keys[1..];
      DrivingFreezesRun(s, keys[1..]);
    }
  }

  /** Without a reset the path only grows, by appending at the cursor. */
  lemma {:induction false} RunExtendsPath(s: GameState, keys: seq<Key>)
    requires Backspace !in keys
    ensures s.path <= Run(s, keys).path
    decreases |keys|
  {
    if |keys| > 0 {
      assert Backspace !in keys[1..];
      RunExtendsPath(Step(s, keys[0]), keys[1..]);
    }
  }
}
