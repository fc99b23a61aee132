/** The pygame sprite group as a sequence in insertion order, each sprite
    known by its identity number: lookup, add, remove, in-place replacement,
    the per-class views, and the draw order of order_all_sprites. */
module SpriteGroup {
  import opened Sprites

  datatype Option<T> = None | Some(value: T)

  /** The sprite with identity `id`, if it is in the group. */
  function Find(s: seq<Entity>, id: nat): (r: Option<Entity>)
    ensures r.Some? ==> r.value.id == id
  {
    if s == [] then None
    else if s[0].id == id then Some(s[0])
    else Find(s[1..], id)
  }

  /** A sprite that Find returns is a member of the group. */
  lemma {:induction false} FindIn(s: seq<Entity>, id: nat)
    ensures Find(s, id).Some? ==> Find(s, id).value in s
  {
    if s != [] && s[0].id != id {
      FindIn(s[1..], id);
    }
  }

  /** Find fails exactly when no member has the identity. */
  lemma {:induction false} FindNone(s: seq<Entity>, id: nat)
    ensures Find(s, id).None? <==> forall i :: 0 <= i < |s| ==> s[i].id != id
  {
    if s != [] {
      FindNone(s[1..], id);
      assert forall i :: 1 <= i < |s| ==> s[i] == s[1..][i - 1];
    }
  }

  /** No two sprites share an identity. */
  ghost predicate Unique(s: seq<Entity>) {
    forall i, j :: 0 <= i < j < |s| ==> s[i].id != s[j].id
  }

  /** Every identity is below `n`, so `n` is fresh. */
  ghost predicate Below(s: seq<Entity>, n: nat) {
    forall i :: 0 <= i < |s| ==> s[i].id < n
  }

  /** Group.add: appended unless already a member. */
  function Add(s: seq<Entity>, e: Entity): (r: seq<Entity>)
    ensures Find(s, e.id).None? ==> r == s + [e]
    ensures Find(s, e.id).Some? ==> r == s
  {
    if Find(s, e.id).Some? then s else s + [e]
  }

  /** Group.remove: the sprite leaves, all others keep their order; removing
      a non-member changes nothing. */
  function Remove(s: seq<Entity>, id: nat): (r: seq<Entity>)
    ensures |r| <= |s|
    ensures Find(s, id).None? ==> r == s
  {
    if s == [] then []
    else if s[0].id == id then Remove(s[1..], id)
    else [s[0]] + Remove(s[1..], id)
  }

  /** Exactly the sprites without the identity remain. */
  lemma {:induction false} RemoveMembers(s: seq<Entity>, id: nat)
    ensures forall e :: e in Remove(s, id) <==> e in s && e.id != id
  {
    if s != [] {
      RemoveMembers(s[1..], id);
    }
  }

  /** A field update of a member: the sprite with e's identity now reads `e`,
      in the same place. */
  function Replace(s: seq<Entity>, e: Entity): (r: seq<Entity>)
    ensures |r| == |s|
    ensures forall i :: 0 <= i < |s| ==> r[i] == if s[i].id == e.id then e else s[i]
  {
    if s == [] then []
    else [if s[0].id == e.id then e else s[0]] + Replace(s[1..], e)
  }

  /** The members of one class, in group order. */
  function OfKind(s: seq<Entity>, k: Kind): (r: seq<Entity>)
    ensures |r| <= |s|
  {
    if s == [] then []
    else if KindOf(s[0]) == k then [s[0]] + OfKind(s[1..], k)
    else OfKind(s[1..], k)
  }

  /** Exactly the members of class k are kept. */
  lemma {:induction false} OfKindMembers(s: seq<Entity>, k: Kind)
    ensures forall e :: e in OfKind(s, k) <==> e in s && KindOf(e) == k
  {
    if s != [] {
      OfKindMembers(s[1..], k);
    }
  }

  function Count(s: seq<Entity>, k: Kind): nat { |OfKind(s, k)| }

  // ----------------------------------------------------------- uniqueness

  lemma {:induction false} FindUnique(s: seq<Entity>, i: nat)
    requires Unique(s) && i < |s|
    ensures Find(s, s[i].id) == Some(s[i])
  {
    if i > 0 {
      assert s[0].id != s[i].id;
      assert s[1..][i - 1] == s[i];
      FindUnique(s[1..], i - 1);
    }
  }

  lemma {:induction false} UniqueTail(s: seq<Entity>)
    requires Unique(s) && s != []
    ensures Unique(s[1..]) && Find(s[1..], s[0].id).None?
  {
    forall i | 0 <= i < |s[1..]| ensures s[1..][i].id != s[0].id {
      assert s[1..][i] == s[i + 1];
    }
    FindNone(s[1..], s[0].id);
  }

  lemma AddKeeps(s: seq<Entity>, e: Entity, n: nat)
    requires Unique(s) && Below(s, n) && e.id == n
    ensures Add(s, e) == s + [e]
    ensures Unique(Add(s, e)) && Below(Add(s, e), n + 1)
  {
    FindNone(s, e.id);
  }

  lemma {:induction false} RemoveKeeps(s: seq<Entity>, id: nat, n: nat)
    requires Unique(s) && Below(s, n)
    ensures Unique(Remove(s, id)) && Below(Remove(s, id), n)
  {
    var r := Remove(s, id);
    RemoveMembers(s, id);
    forall i | 0 <= i < |r| ensures r[i].id < n {
      assert r[i] in s;
    }
    if s != [] {
      UniqueTail(s);
      RemoveKeeps(s[1..], id, n);
      var t := Remove(s[1..], id);
      RemoveMembers(s[1..], id);
      if s[0].id != id {
        forall j | 0 <= j < |t| ensures t[j].id != s[0].id {
          assert t[j] in s[1..];
        }
      }
    }
  }

  lemma ReplaceKeeps(s: seq<Entity>, e: Entity, n: nat)
    requires Unique(s) && Below(s, n) && Find(s, e.id).Some?
    ensures Unique(Replace(s, e)) && Below(Replace(s, e), n)
  {
    var r := Replace(s, e);
    forall i, j | 0 <= i < j < |r| ensures r[i].id != r[j].id {
      assert r[i].id == s[i].id && r[j].id == s[j].id;
    }
  }

  // -------------------------------------------------------------- lookups

  lemma {:induction false} FindReplace(s: seq<Entity>, e: Entity, id: nat)
    requires Find(s, e.id).Some?
    ensures Find(Replace(s, e), id) == if id == e.id then Some(e) else Find(s, id)
  {
    if s != [] && s[0].id != e.id {
      FindReplace(s[1..], e, id);
    } else if s != [] && id != e.id {
      FindReplaceOther(s[1..], e, id);
    }
  }

  lemma {:induction false} FindReplaceOther(s: seq<Entity>, e: Entity, id: nat)
    requires id != e.id
    ensures Find(Replace(s, e), id) == Find(s, id)
  {
    if s != [] {
      FindReplaceOther(s[1..], e, id);
    }
  }

  lemma {:induction false} FindRemove(s: seq<Entity>, gone: nat, id: nat)
    ensures Find(Remove(s, gone), id) == if id == gone then None else Find(s, id)
  {
    if s != [] {
      FindRemove(s[1..], gone, id);
    }
  }

  lemma {:induction false} FindAppend(s: seq<Entity>, e: Entity, id: nat)
    ensures Find(s + [e], id) == if Find(s, id).Some? then Find(s, id) else if e.id == id then Some(e) else None
  {
    if s != [] {
      assert (s + [e])[1..] == s[1..] + [e];
      FindAppend(s[1..], e, id);
    }
  }

  // --------------------------------------------------------------- counts

  lemma {:induction false} OfKindAppend(s: seq<Entity>, e: Entity, k: Kind)
    ensures OfKind(s + [e], k) == OfKind(s, k) + (if KindOf(e) == k then [e] else [])
  {
    if s != [] {
      assert (s + [e])[1..] == s[1..] + [e];
      OfKindAppend(s[1..], e, k);
    }
  }

  lemma {:induction false} OfKindRemove(s: seq<Entity>, id: nat, k: Kind)
    requires Find(s, id).None? || KindOf(Find(s, id).value) != k
    requires Unique(s)
    ensures OfKind(Remove(s, id), k) == OfKind(s, k)
  {
    if s != [] {
      UniqueTail(s);
      OfKindRemove(s[1..], id, k);
    }
  }

  lemma {:induction false} CountRemove(s: seq<Entity>, id: nat, k: Kind)
    requires Unique(s) && Find(s, id).Some?
    ensures Count(Remove(s, id), k) == Count(s, k) - (if KindOf(Find(s, id).value) == k then 1 else 0)
  {
    UniqueTail(s);
    if s[0].id == id {
      assert Remove(s[1..], id) == s[1..];
    } else {
      CountRemove(s[1..], id, k);
    }
  }

  lemma {:induction false} ReplaceAbsent(s: seq<Entity>, e: Entity)
    requires Find(s, e.id).None?
    ensures Replace(s, e) == s
  {
    if s != [] {
      ReplaceAbsent(s[1..], e);
    }
  }

  lemma {:induction false} OfKindReplace(s: seq<Entity>, e: Entity, k: Kind)
    requires Unique(s) && Find(s, e.id).Some? && KindOf(e) == KindOf(Find(s, e.id).value) && KindOf(e) != k
    ensures OfKind(Replace(s, e), k) == OfKind(s, k)
  {
    UniqueTail(s);
    if s[0].id != e.id {
      OfKindReplace(s[1..], e, k);
    } else {
      ReplaceAbsent(s[1..], e);
    }
  }

  /** Two groups with the same class at every place have the same counts. */
  lemma {:induction false} SameKindsSameCount(a: seq<Entity>, b: seq<Entity>, k: Kind)
    requires |a| == |b| && forall i :: 0 <= i < |a| ==> KindOf(a[i]) == KindOf(b[i])
    ensures Count(a, k) == Count(b, k)
  {
    if a != [] {
      assert forall i :: 0 <= i < |a[1..]| ==> a[1..][i] == a[i + 1] && b[1..][i] == b[i + 1];
      SameKindsSameCount(a[1..], b[1..], k);
    }
  }

  lemma CountReplace(s: seq<Entity>, e: Entity, k: Kind)
    requires Unique(s) && Find(s, e.id).Some? && KindOf(e) == KindOf(Find(s, e.id).value)
    ensures Count(Replace(s, e), k) == Count(s, k)
  {
    var r := Replace(s, e);
    forall i | 0 <= i < |s| ensures KindOf(r[i]) == KindOf(s[i]) {
      if s[i].id == e.id {
        FindUnique(s, i);
      }
    }
    SameKindsSameCount(r, s, k);
  }

  // ------------------------------------------------------------ draw order

  /** order_all_sprites' class order. */
  const DrawOrder := [IslandKind, SinkSpotKind, UserKind, EnemyKind, ShellKind, ShrapnelKind]

  function Rank(k: Kind): nat {
    match k
    case IslandKind => 0
    case SinkSpotKind => 1
    case UserKind => 2
    case EnemyKind => 3
    case ShellKind => 4
    case ShrapnelKind => 5
  }

  /** The members of the given classes, class by class. */
  function Grouped(s: seq<Entity>, kinds: seq<Kind>): seq<Entity> {
    if kinds == [] then [] else Grouped(s, kinds[..|kinds| - 1]) + OfKind(s, kinds[|kinds| - 1])
  }

  /** order_all_sprites: the classes in draw order, each in group order. */
  function OrderAll(s: seq<Entity>): seq<Entity> {
    Grouped(s, DrawOrder)
  }

  /** The rebuilt group of order_all_sprites: each class, in draw order,
      taken from the old group in its order. */
  method OrderAllSprites(allSprites: seq<Entity>) returns (newAllSprites: seq<Entity>)
    ensures newAllSprites == OrderAll(allSprites)
  {
    newAllSprites := [];
    var i := 0;
    while i < |DrawOrder|
      invariant 0 <= i <= |DrawOrder|
      invariant newAllSprites == Grouped(allSprites, DrawOrder[..i])
    {
      var kind := DrawOrder[i];
      var j := 0;
      var picked := [];
      while j < |allSprites|
        invariant 0 <= j <= |allSprites|
        invariant picked == OfKind(allSprites[..j], kind)
      {
        OfKindAppend(allSprites[..j], allSprites[j], kind);
        assert allSprites[..j + 1] == allSprites[..j] + [allSprites[j]];
        if KindOf(allSprites[j]) == kind {
          picked := picked + [allSprites[j]];
        }
        j := j + 1;
      }
      assert allSprites[..|allSprites|] == allSprites;
      assert DrawOrder[..i + 1][..i] == DrawOrder[..i];
      newAllSprites := newAllSprites + picked;
      i := i + 1;
    }
    assert DrawOrder[..|DrawOrder|] == DrawOrder;
  }

  /** The members of all six classes, as one bag. */
  function Bags(s: seq<Entity>): multiset<Entity> {
    multiset(OfKind(s, IslandKind)) + multiset(OfKind(s, SinkSpotKind))
    + multiset(OfKind(s, UserKind)) + multiset(OfKind(s, EnemyKind))
    + multiset(OfKind(s, ShellKind)) + multiset(OfKind(s, ShrapnelKind))
  }

  /** A sprite occurs in its own class's selection as often as in the
      group, and in no other class's. */
  lemma {:induction false} OfKindCount(s: seq<Entity>, k: Kind, x: Entity)
    ensures multiset(OfKind(s, k))[x] == if KindOf(x) == k then multiset(s)[x] else 0
  {
    if s != [] {
      OfKindCount(s[1..], k, x);
      assert s == [s[0]] + s[1..];
      if KindOf(s[0]) == k {
        assert OfKind(s, k) == [s[0]] + OfKind(s[1..], k);
      }
    }
  }

  /** Every member is in exactly one class. */
  lemma OfKindMultiset(s: seq<Entity>)
    ensures multiset(s) == Bags(s)
  {
    forall x ensures multiset(s)[x] == Bags(s)[x] {
      OfKindCount(s, IslandKind, x);
      OfKindCount(s, SinkSpotKind, x);
      OfKindCount(s, UserKind, x);
      OfKindCount(s, EnemyKind, x);
      OfKindCount(s, ShellKind, x);
      OfKindCount(s, ShrapnelKind, x);
    }
  }

  lemma GroupedDrawOrder(s: seq<Entity>)
    ensures OrderAll(s) == OfKind(s, IslandKind) + OfKind(s, SinkSpotKind) + OfKind(s, UserKind)
                           + OfKind(s, EnemyKind) + OfKind(s, ShellKind) + OfKind(s, ShrapnelKind)
  {
    var d := DrawOrder;
    assert d[..1][..0] == [];
    assert Grouped(s, d[..1]) == OfKind(s, IslandKind);
    assert d[..2][..1] == d[..1];
    assert Grouped(s, d[..2]) == Grouped(s, d[..1]) + OfKind(s, SinkSpotKind);
    assert d[..3][..2] == d[..2];
    assert Grouped(s, d[..3]) == Grouped(s, d[..2]) + OfKind(s, UserKind);
    assert d[..4][..3] == d[..3];
    assert Grouped(s, d[..4]) == Grouped(s, d[..3]) + OfKind(s, EnemyKind);
    assert d[..5][..4] == d[..4];
    assert Grouped(s, d[..5]) == Grouped(s, d[..4]) + OfKind(s, ShellKind);
    assert d[..5] == d[..|d| - 1];
    assert Grouped(s, d) == Grouped(s, d[..5]) + OfKind(s, ShrapnelKind);
  }

  /** order_all_sprites keeps every sprite exactly once. */
  lemma OrderAllPermutes(s: seq<Entity>)
    ensures multiset(OrderAll(s)) == multiset(s)
  {
    GroupedDrawOrder(s);
    OfKindMultiset(s);
  }

  /** With distinct identities a sprite occurs at most once. */
  lemma {:induction false} UniqueOnce(s: seq<Entity>, x: Entity)
    requires Unique(s)
    ensures multiset(s)[x] <= 1
  {
    if s != [] {
      UniqueTail(s);
      UniqueOnce(s[1..], x);
      assert s == [s[0]] + s[1..];
      if s[0] == x {
        FindNone(s[1..], x.id);
        assert x !in s[1..];
      }
    }
  }

  /** A rearrangement of a group with distinct identities has distinct
      identities, and every identity below a bound stays below it. */
  lemma PermKeeps(r: seq<Entity>, s: seq<Entity>, n: nat)
    requires multiset(r) == multiset(s) && Unique(s) && Below(s, n)
    ensures Unique(r) && Below(r, n)
  {
    forall i | 0 <= i < |r| ensures r[i].id < n {
      assert r[i] in multiset(s);
    }
    forall i, j | 0 <= i < j < |r| ensures r[i].id != r[j].id {
      if r[i].id == r[j].id {
        assert r[i] in multiset(s) && r[j] in multiset(s);
        var p :| 0 <= p < |s| && s[p] == r[i];
        var q :| 0 <= q < |s| && s[q] == r[j];
        assert p == q;
        assert r == r[..j] + r[j..];
        assert r[i] in r[..j] && r[j] in r[j..];
        assert multiset(r)[r[i]] == multiset(r[..j])[r[i]] + multiset(r[j..])[r[i]];
        UniqueOnce(s, r[i]);
        assert false;
      }
    }
  }

  /** Lookups by identity do not see the order of a group with distinct
      identities. */
  lemma PermFind(r: seq<Entity>, s: seq<Entity>, id: nat)
    requires multiset(r) == multiset(s) && Unique(s) && Unique(r)
    ensures Find(r, id) == Find(s, id)
  {
    FindIn(s, id);
    if Find(s, id).Some? {
      var x := Find(s, id).value;
      assert x in multiset(r);
      var k :| 0 <= k < |r| && r[k] == x;
      FindUnique(r, k);
    } else {
      FindNone(s, id);
      forall i | 0 <= i < |r| ensures r[i].id != id {
        assert r[i] in multiset(s);
      }
      FindNone(r, id);
    }
  }

  lemma {:induction false} OfKindIdempotent(s: seq<Entity>, k: Kind, k2: Kind)
    ensures OfKind(OfKind(s, k), k2) == if k == k2 then OfKind(s, k) else []
  {
    if s != [] {
      OfKindIdempotent(s[1..], k, k2);
    }
  }

  lemma {:induction false} OfKindConcat(a: seq<Entity>, b: seq<Entity>, k: Kind)
    ensures OfKind(a + b, k) == OfKind(a, k) + OfKind(b, k)
  {
    if a == [] {
      assert a + b == b;
    } else {
      var ab := a + b;
      assert ab[0] == a[0];
      assert ab[1..] == a[1..] + b;
      OfKindConcat(a[1..], b, k);
      if KindOf(a[0]) == k {
        assert OfKind(ab, k) == [a[0]] + OfKind(ab[1..], k);
        assert OfKind(a, k) == [a[0]] + OfKind(a[1..], k);
      } else {
        assert OfKind(ab, k) == OfKind(ab[1..], k);
        assert OfKind(a, k) == OfKind(a[1..], k);
      }
    }
  }

  /** Over distinct classes, one class of the grouping is that class of
      the group when it is listed, and nothing otherwise. */
  lemma {:induction false} OfKindGrouped(s: seq<Entity>, kinds: seq<Kind>, k: Kind)
    requires forall i, j :: 0 <= i < j < |kinds| ==> kinds[i] != kinds[j]
    ensures OfKind(Grouped(s, kinds), k) == if k in kinds then OfKind(s, k) else []
  {
    if kinds != [] {
      var init, last := kinds[..|kinds| - 1], kinds[|kinds| - 1];
      OfKindGrouped(s, init, k);
      OfKindConcat(Grouped(s, init), OfKind(s, last), k);
      OfKindIdempotent(s, last, k);
      assert kinds == init + [last];
      if k == last {
        assert k !in init by {
          forall i | 0 <= i < |init| ensures init[i] != k {
            assert init[i] == kinds[i];
          }
        }
      }
    }
  }

  /** Each class keeps its members in their old relative order. */
  lemma OrderAllStable(s: seq<Entity>, k: Kind)
    ensures OfKind(OrderAll(s), k) == OfKind(s, k)
  {
    OfKindGrouped(s, DrawOrder, k);
    assert k in DrawOrder by {
      match k
      case IslandKind => assert DrawOrder[0] == k;
      case SinkSpotKind => assert DrawOrder[1] == k;
      case UserKind => assert DrawOrder[2] == k;
      case EnemyKind => assert DrawOrder[3] == k;
      case ShellKind => assert DrawOrder[4] == k;
      case ShrapnelKind => assert DrawOrder[5] == k;
    }
  }

  /** The classes appear in draw order: no sprite precedes one of an
      earlier class. */
  lemma OrderAllSorted(s: seq<Entity>)
    ensures var r := OrderAll(s);
            forall i, j :: 0 <= i < j < |r| ==> Rank(KindOf(r[i])) <= Rank(KindOf(r[j]))
  {
    GroupedDrawOrder(s);
    var r := OrderAll(s);
    var a, b, c, d, e, f := OfKind(s, IslandKind), OfKind(s, SinkSpotKind), OfKind(s, UserKind),
                            OfKind(s, EnemyKind), OfKind(s, ShellKind), OfKind(s, ShrapnelKind);
    OfKindMembers(s, IslandKind);
    OfKindMembers(s, SinkSpotKind);
    OfKindMembers(s, UserKind);
    OfKindMembers(s, EnemyKind);
    OfKindMembers(s, ShellKind);
    OfKindMembers(s, ShrapnelKind);
    var ends := [|a|, |a| + |b|, |a| + |b| + |c|, |a| + |b| + |c| + |d|, |a| + |b| + |c| + |d| + |e|];
    forall i | 0 <= i < |r|
      ensures Rank(KindOf(r[i])) == if i < ends[0] then 0 else if i < ends[1] then 1 else if i < ends[2] then 2
                                     else if i < ends[3] then 3 else if i < ends[4] then 4 else 5
    {
      if i < ends[0] { assert r[i] == a[i]; assert a[i] in a; }
      else if i < ends[1] { assert r[i] == b[i - ends[0]]; assert b[i - ends[0]] in b; }
      else if i < ends[2] { assert r[i] == c[i - ends[1]]; assert c[i - ends[1]] in c; }
      else if i < ends[3] { assert r[i] == d[i - ends[2]]; assert d[i - ends[2]] in d; }
      else if i < ends[4] { assert r[i] == e[i - ends[3]]; assert e[i - ends[3]] in e; }
      else { assert r[i] == f[i - ends[4]]; assert f[i - ends[4]] in f; }
    }
  }
}
