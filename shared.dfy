/** Small value types shared by every part of the game model. */
module Shared {

  datatype Option<T> = None | Some(value: T)

  /** A screen position in pixels. */
  datatype Point = Point(x: int, y: int)

  /**
   * An integer rectangle with the semantics of pygame's Rect: `center` rounds
   * the half-size down, and `collidepoint` is half-open on both axes.
   */
  datatype Rect = Rect(x: int, y: int, w: nat, h: nat) {

    function Right(): int { x + w }

    function Center(): Point { Point(x + w / 2, y + h / 2) }

    predicate CollidePoint(p: Point) {
      x <= p.x < x + w && y <= p.y < y + h
    }

    /** The rectangle moved by `dx` and `dy`: its centre moves by as much and its size stays. */
    function Moved(dx: int, dy: int): (r: Rect)
      ensures r.Center() == Point(Center().x + dx, Center().y + dy) && r.w == w && r.h == h
    {
      Rect(x + dx, y + dy, w, h)
    }

    /** Assigning `centerx` moves the rectangle horizontally and keeps its size. */
    function WithCenterX(cx: int): (r: Rect)
      ensures r.Center().x == cx && r.y == y && r.w == w && r.h == h
    {
      Rect(cx - w / 2, y, w, h)
    }
  }

  predicate NoDuplicates<T(==)>(s: seq<T>) {
    forall i, j :: 0 <= i < j < |s| ==> s[i] != s[j]
  }

  function Min(a: int, b: int): int { if a <= b then a else b }

  function Max(a: int, b: int): int { if a >= b then a else b }

  /** The elements of `s` that are not in `gone`, in their original order. */
  function Without<T(==)>(s: seq<T>, gone: seq<T>): (r: seq<T>)
    ensures |r| <= |s|
    ensures NoDuplicates(s) ==> NoDuplicates(r)
    decreases |s|, 0
  {
    if s == [] then []
    else if s[|s| - 1] in gone then Without(s[..|s| - 1], gone)
    else
      var prev := Without(s[..|s| - 1], gone);
      assert NoDuplicates(s) ==> NoDuplicates(prev + [s[|s| - 1]]) by {
        if NoDuplicates(s) {
          WithoutMembers(s[..|s| - 1], gone, s[|s| - 1]);
          AppendFresh(prev, s[|s| - 1]);
        }
      }
      prev + [s[|s| - 1]]
  }

  /** `Without(s, gone)` holds exactly the elements of `s` that are not in `gone`. */
  lemma {:induction false} WithoutMembers<T>(s: seq<T>, gone: seq<T>, x: T)
    ensures x in Without(s, gone) <==> x in s && x !in gone
    decreases |s|, 1
  {
    if s != [] {
      var n := |s| - 1;
      WithoutMembers(s[..n], gone, x);
      assert s == s[..n] + [s[n]];
    }
  }

  /** Appending an element that is not there yet keeps a sequence free of duplicates. */
  lemma AppendFresh<T>(s: seq<T>, x: T)
    requires NoDuplicates(s) && x !in s
    ensures NoDuplicates(s + [x])
  {
    var t := s + [x];
    forall i, j | 0 <= i < j < |t| ensures t[i] != t[j] {
      if j == |s| {
        assert t[i] == s[i];
      } else {
        assert t[i] == s[i] && t[j] == s[j];
      }
    }
  }
}
