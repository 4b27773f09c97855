/** The persisted wishlist store (store/gameStore.ts) as pure functions over
    the list of saved games. The store's state is `savedGames`; every action
    maps the current list to the next one. Persistence to local storage is not
    part of this model. */
module GameStore {
  import opened JsCore
  import opened GameTypes

  /** Some saved entry carries this id. */
  ghost predicate HasId(saved: seq<Game>, id: int) {
    exists i :: 0 <= i < |saved| && saved[i].id == id
  }

  /** The store's invariant: no two saved entries share an id. */
  ghost predicate DistinctIds(saved: seq<Game>) {
    forall i, j :: 0 <= i < j < |saved| ==> saved[i].id != saved[j].id
  }

  /** Membership in a non-empty list splits into head and tail. */
  lemma HasIdCons(saved: seq<Game>, id: int)
    requires saved != []
    ensures HasId(saved, id) <==> saved[0].id == id || HasId(saved[1..], id)
  {
    if HasId(saved, id) {
      var k :| 0 <= k < |saved| && saved[k].id == id;
      if k > 0 { assert saved[1..][k - 1].id == id; }
    }
    if HasId(saved[1..], id) {
      var k :| 0 <= k < |saved[1..]| && saved[1..][k].id == id;
      assert saved[k + 1].id == id;
    }
  }

  /** The tail of a list with distinct ids has distinct ids, none equal to the head's. */
  lemma DistinctTail(saved: seq<Game>)
    requires saved != [] && DistinctIds(saved)
    ensures DistinctIds(saved[1..])
    ensures !HasId(saved[1..], saved[0].id)
  {
    var tail := saved[1..];
    forall i, j | 0 <= i < j < |tail| ensures tail[i].id != tail[j].id {
      assert tail[i] == saved[i + 1] && tail[j] == saved[j + 1];
    }
    forall k | 0 <= k < |tail| ensures tail[k].id != saved[0].id {
      assert tail[k] == saved[k + 1];
    }
  }

  /** `savedGames.find(g => g.id === id)`: the first entry with that id. */
  function FindById(saved: seq<Game>, id: int): (r: Option<Game>)
    ensures r.Some? <==> HasId(saved, id)
    ensures r.Some? ==> r.value.id == id && r.value in saved
    ensures r.Some? ==> exists i :: 0 <= i < |saved| && saved[i] == r.value
                          && forall j :: 0 <= j < i ==> saved[j].id != id
  {
    if saved == [] then None
    else if saved[0].id == id then Some(saved[0])
    else
      var r := FindById(saved[1..], id);
      HasIdCons(saved, id);
      if r.Some? then
        var i :| 0 <= i < |saved[1..]| && saved[1..][i] == r.value
                 && forall j :: 0 <= j < i ==> saved[1..][j].id != id;
        assert saved[i + 1] == r.value;
        assert forall j :: 0 <= j < i + 1 ==> saved[j].id != id by {
          forall j | 0 <= j < i + 1 ensures saved[j].id != id {
            if j > 0 { assert saved[j] == saved[1..][j - 1]; }
          }
        }
        r
      else
        r
  }

  /** `isGameSaved(id)`: `savedGames.some(g => g.id === id)`. */
  predicate IsGameSaved(saved: seq<Game>, id: int)
    ensures IsGameSaved(saved, id) <==> HasId(saved, id)
  {
    if saved == [] then false
    else
      HasIdCons(saved, id);
      saved[0].id == id || IsGameSaved(saved[1..], id)
  }

  /** The copy the store keeps of an added game: `{ ...game, added_to_wishlist: true }`. */
  function MarkSaved(game: Game): (g: Game)
    ensures g.id == game.id && g.addedToWishlist == Some(true)
    ensures g.(addedToWishlist := game.addedToWishlist) == game
  {
    game.(addedToWishlist := Some(true))
  }

  /** `addGame(game)`: appends a flagged copy unless the id is already saved. */
  function AddGame(saved: seq<Game>, game: Game): (r: seq<Game>)
    ensures HasId(saved, game.id) ==> r == saved
    ensures !HasId(saved, game.id) ==>
              |r| == |saved| + 1 && r[..|saved|] == saved && r[|saved|] == MarkSaved(game)
    ensures HasId(r, game.id)
    ensures DistinctIds(saved) ==> DistinctIds(r)
  {
    if FindById(saved, game.id).None? then
      var r := saved + [MarkSaved(game)];
      assert r[|saved|].id == game.id;
      assert r[..|saved|] == saved;
      r
    else
      saved
  }

  /** `removeGame(id)`: `savedGames.filter(g => g.id !== id)`. */
  function RemoveGame(saved: seq<Game>, id: int): (r: seq<Game>)
    ensures !HasId(r, id)
    ensures forall g :: g in r ==> g in saved
    ensures forall g :: g in saved && g.id != id ==> g in r
    ensures |r| <= |saved|
    ensures !HasId(saved, id) ==> r == saved
    ensures DistinctIds(saved) ==> DistinctIds(r)
  {
    if saved == [] then []
    else
      var rest := RemoveGame(saved[1..], id);
      var r := (if saved[0].id != id then [saved[0]] else []) + rest;
      RemoveGameStep(saved, id, rest, r);
      r
  }

  /** The inductive step of `RemoveGame`'s contract, one obligation group per lemma. */
  lemma RemoveGameStep(saved: seq<Game>, id: int, rest: seq<Game>, r: seq<Game>)
    requires saved != []
    requires !HasId(rest, id)
    requires forall g :: g in rest ==> g in saved[1..]
    requires forall g :: g in saved[1..] && g.id != id ==> g in rest
    requires |rest| <= |saved| - 1
    requires !HasId(saved[1..], id) ==> rest == saved[1..]
    requires DistinctIds(saved[1..]) ==> DistinctIds(rest)
    requires r == (if saved[0].id != id then [saved[0]] else []) + rest
    ensures !HasId(r, id)
    ensures forall g :: g in r ==> g in saved
    ensures forall g :: g in saved && g.id != id ==> g in r
    ensures |r| <= |saved|
    ensures !HasId(saved, id) ==> r == saved
    ensures DistinctIds(saved) ==> DistinctIds(r)
  {
    HasIdCons(saved, id);
    RemoveStepNoId(saved, id, rest, r);
    assert saved == [saved[0]] + saved[1..];
    if DistinctIds(saved) {
      DistinctTail(saved);
      RemoveStepDistinct(saved, id, rest, r);
    }
  }

  lemma RemoveStepNoId(saved: seq<Game>, id: int, rest: seq<Game>, r: seq<Game>)
    requires saved != [] && !HasId(rest, id)
    requires r == (if saved[0].id != id then [saved[0]] else []) + rest
    ensures !HasId(r, id)
  {
    forall k | 0 <= k < |r| ensures r[k].id != id {
      if saved[0].id != id && k > 0 {
        assert r[k] == rest[k - 1];
      }
    }
  }

  lemma RemoveStepDistinct(saved: seq<Game>, id: int, rest: seq<Game>, r: seq<Game>)
    requires saved != [] && DistinctIds(rest) && !HasId(saved[1..], saved[0].id)
    requires forall g :: g in rest ==> g in saved[1..]
    requires r == (if saved[0].id != id then [saved[0]] else []) + rest
    ensures DistinctIds(r)
  {
    if saved[0].id != id {
      forall i, j | 0 <= i < j < |r| ensures r[i].id != r[j].id {
        if i == 0 {
          assert r[j] in saved[1..];
          var k :| 0 <= k < |saved[1..]| && saved[1..][k] == r[j];
        } else {
          assert r[i] == rest[i - 1] && r[j] == rest[j - 1];
        }
      }
    }
  }

  /** `clearAllGames()`. */
  function ClearAllGames(saved: seq<Game>): (r: seq<Game>)
    ensures r == []
    ensures forall id :: !HasId(r, id)
  {
    []
  }

  /** `Math.floor(u * n)` for a draw `u` of `Math.random()`, which lies in [0, 1). */
  function RandomIndex(u: real, n: nat): (i: nat)
    requires 0.0 <= u < 1.0
    requires n > 0
    ensures i < n
    ensures i as real <= u * n as real < (i + 1) as real
  {
    ScaledDrawBelow(u, n as real);
    FloorBelow(u * n as real, n);
    (u * n as real).Floor
  }

  /** A draw scaled by a positive `n` stays below `n`. */
  lemma ScaledDrawBelow(u: real, n: real)
    requires 0.0 <= u < 1.0 && n > 0.0
    ensures 0.0 <= u * n < n
  {
    PositiveProduct(1.0 - u, n);
    calc {
      n - u * n;
    ==
      (1.0 - u) * n;
    >
      0.0;
    }
    if u > 0.0 {
      PositiveProduct(u, n);
    }
  }

  /** The floor of a real in `[0, n)` is an index below `n`. */
  lemma FloorBelow(x: real, n: nat)
    requires 0.0 <= x < n as real
    ensures 0 <= x.Floor < n
    ensures x.Floor as real <= x < (x.Floor + 1) as real
  {
  }

  lemma PositiveProduct(a: real, b: real)
    requires a > 0.0 && b > 0.0
    ensures a * b > 0.0
  {
  }

  /** Each index is produced by a draw interval of the same width 1/n, so a
      uniform draw selects every saved entry with equal probability. */
  lemma RandomIndexInterval(u: real, n: nat, i: nat)
    requires 0.0 <= u < 1.0
    requires n > 0
    ensures RandomIndex(u, n) == i <==> i as real / n as real <= u < (i + 1) as real / n as real
  {
    var nr := n as real;
    var k := RandomIndex(u, n);
    assert k as real <= u * nr < (k + 1) as real;
    if RandomIndex(u, n) == i {
      assert i as real / nr <= u by { DivLe(i as real, u, nr); }
      assert u < (i + 1) as real / nr by { LtDiv(u, (i + 1) as real, nr); }
    }
    if i as real / nr <= u < (i + 1) as real / nr {
      assert i as real <= u * nr by { MulLe(i as real, u, nr); }
      assert u * nr < (i + 1) as real by { MulLt(u, (i + 1) as real, nr); }
      assert i == k;
    }
  }

  lemma DivLe(a: real, u: real, n: real)
    requires n > 0.0 && a <= u * n
    ensures a / n <= u
  {
  }

  lemma LtDiv(u: real, b: real, n: real)
    requires n > 0.0 && u * n < b
    ensures u < b / n
  {
  }

  lemma MulLe(a: real, u: real, n: real)
    requires n > 0.0 && a / n <= u
    ensures a <= u * n
  {
  }

  lemma MulLt(u: real, b: real, n: real)
    requires n > 0.0 && u < b / n
    ensures u * n < b
  {
  }

  /** `getRandomGame()` for the draw `u`: `null` on an empty list, otherwise
      the saved entry at `Math.floor(u * n)`. */
  function GetRandomGame(saved: seq<Game>, u: real): (r: Option<Game>)
    requires 0.0 <= u < 1.0
    ensures r.None? <==> saved == []
    ensures r.Some? ==> r.value in saved
    ensures r.Some? ==> r.value == saved[RandomIndex(u, |saved|)]
  {
    if |saved| == 0 then None else Some(saved[RandomIndex(u, |saved|)])
  }

  /** Adding twice is adding once. */
  lemma AddGameIdempotent(saved: seq<Game>, game: Game)
    ensures AddGame(AddGame(saved, game), game) == AddGame(saved, game)
  {
  }

  /** On a list with distinct ids, removing the id of entry `k` deletes
      exactly that entry and keeps the others in their original order. */
  lemma {:induction false} RemoveGameDeletesOne(saved: seq<Game>, k: nat)
    requires DistinctIds(saved)
    requires k < |saved|
    ensures RemoveGame(saved, saved[k].id) == saved[..k] + saved[k + 1..]
  {
    var id := saved[k].id;
    var tail := saved[1..];
    DistinctTail(saved);
    RemoveGameCons(saved, id);
    if k == 0 {
      RemoveHeadId(saved);
    } else {
      RemoveGameDeletesOne(tail, k - 1);
      RemoveLaterId(saved, k, RemoveGame(tail, id));
    }
  }

  lemma RemoveHeadId(saved: seq<Game>)
    requires saved != []
    requires !HasId(saved[1..], saved[0].id)
    ensures RemoveGame(saved, saved[0].id) == saved[..0] + saved[1..]
  {
    RemoveGameCons(saved, saved[0].id);
  }

  lemma RemoveLaterId(saved: seq<Game>, k: nat, rest: seq<Game>)
    requires 0 < k < |saved|
    requires saved[0].id != saved[k].id
    requires rest == RemoveGame(saved[1..], saved[k].id)
    requires rest == saved[1..][..k - 1] + saved[1..][k..]
    ensures RemoveGame(saved, saved[k].id) == saved[..k] + saved[k + 1..]
  {
    RemoveGameCons(saved, saved[k].id);
    DropAtCons(saved, k);
  }

  lemma DropAtCons<T>(s: seq<T>, k: nat)
    requires 0 < k < |s|
    ensures s[..k] + s[k + 1..] == [s[0]] + (s[1..][..k - 1] + s[1..][k..])
  {
    assert s[..k] == [s[0]] + s[1..][..k - 1];
    assert s[k + 1..] == s[1..][k..];
  }

  lemma RemoveGameCons(saved: seq<Game>, id: int)
    requires saved != []
    ensures RemoveGame(saved, id) == (if saved[0].id != id then [saved[0]] else []) + RemoveGame(saved[1..], id)
  {
  }

  /** Adding an unsaved game and then removing its id restores the list. */
  lemma {:induction false} RemoveUndoesAdd(saved: seq<Game>, game: Game)
    requires DistinctIds(saved)
    requires !HasId(saved, game.id)
    ensures RemoveGame(AddGame(saved, game), game.id) == saved
  {
    var added := AddGame(saved, game);
    assert DistinctIds(added);
    assert added[|saved|].id == game.id;
    RemoveGameDeletesOne(added, |saved|);
    assert added[..|saved|] + added[|saved| + 1..] == saved;
  }
}
