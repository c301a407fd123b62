/**
 * Vertex bookkeeping of the UI pipeline. Labels and buttons live in maps
 * keyed by their ids; their quads live in two flat vertex buffers, six
 * vertices per quad (one quad per label character, one per button). The
 * vertex counts say how much of each buffer is drawn. Glyph placement is
 * floating-point work and is given as a layout function.
 */
module UI {
  import opened Common
  import opened Prims

  /** Vertices in each UI vertex buffer: `kInitialLabelVertexBufferSize` holds 64 quads. */
  const BUFFER_VERTICES: nat := 64 * 6
  /** `kInvalidLabelID` and `kInvalidButtonID`. */
  const INVALID_LABEL_ID: nat := U32_MAX
  const INVALID_BUTTON_ID: nat := U32_MAX
  /** The window extents the pipeline assumes before the first resize. */
  const DEFAULT_EXTENT: Extent2D := Extent2D(1536, 768)

  datatype TextureType = SolidColor | Gradient | Image

  /**
   * What a label shows. Position, scale, alignment and font metrics only
   * feed the glyph layout and are summarised by `style`.
   */
  datatype LabelContent = LabelContent(text: string, texture: TextureType, color: Color, style: nat)
  datatype Label = Label(content: LabelContent, startVertex: u32, endVertex: u32)

  datatype ButtonContent = ButtonContent(position: Vec2, scale: Vec2, texture: TextureType, color: Color)
  datatype Button = Button(content: ButtonContent, startVertex: u32, endVertex: u32)

  /** The quad of a button: its rectangle, textured with the font's solid texel. */
  function ButtonQuad(b: ButtonContent, solidRect: Vec2): Quad
  {
    Quad(Vec2(b.position.x, b.position.x + b.scale.x), Vec2(b.position.y, b.position.y + b.scale.y),
         solidRect, solidRect)
  }

  // ---------------------------------------------------------------------
  // std::map: key order and try_emplace

  /** A non-empty key set has a least element. */
  lemma {:induction false} LeastOf(s: set<nat>) returns (least: nat)
    requires s != {}
    ensures least in s
    ensures forall y :: y in s ==> least <= y
  {
    var x :| x in s;
    if s == {x} {
      least := x;
    } else {
      var m := LeastOf(s - {x});
      least := if x < m then x else m;
      forall y | y in s
        ensures least <= y
      {
        if y != x {
          assert y in s - {x};
        }
      }
    }
  }

  lemma MinExists(s: set<nat>)
    requires s != {}
    ensures exists m :: m in s && forall x :: x in s ==> m <= x
  {
    var m := LeastOf(s);
  }

  /** The least key of a non-empty key set. */
  function MinKey(s: set<nat>): (m: nat)
    requires s != {}
    ensures m in s && forall x :: x in s ==> m <= x
  {
    MinExists(s);
    var m :| m in s && forall x :: x in s ==> m <= x;
    m
  }

  /** The keys in ascending order, as a `std::map` iterates them. */
  function SortedKeys(s: set<nat>): (r: seq<nat>)
    ensures |r| == |s|
    ensures forall x :: x in r <==> x in s
    ensures forall i, j :: 0 <= i < j < |r| ==> r[i] < r[j]
    decreases s
  {
    if s == {} then []
    else
      var m := MinKey(s);
      var rest := SortedKeys(s - {m});
      PrependLeast(m, rest, s);
      [m] + rest
  }

  /** Putting the least key of `s` in front of the other keys in ascending order keeps them ascending. */
  lemma PrependLeast(m: nat, rest: seq<nat>, s: set<nat>)
    requires m in s && forall x :: x in s ==> m <= x
    requires forall x :: x in rest <==> x in s - {m}
    requires forall i, j :: 0 <= i < j < |rest| ==> rest[i] < rest[j]
    ensures forall i, j :: 0 <= i < j < |[m] + rest| ==> ([m] + rest)[i] < ([m] + rest)[j]
  {
    var r := [m] + rest;
    forall i, j | 0 <= i < j < |r|
      ensures r[i] < r[j]
    {
      assert r[j] == rest[j - 1] && rest[j - 1] in rest;
      if i > 0 {
        assert r[i] == rest[i - 1];
      }
    }
  }

  /** `try_emplace`: inserts unless the key is already present; an entry already there wins. */
  function TryEmplace<V>(m: map<nat, V>, k: nat, v: V): (r: map<nat, V>)
    ensures k in r && r[k] == (if k in m then m[k] else v)
  {
    if k in m then m else m[k := v]
  }

  /** `try_emplace` of the first `n` pairs `(ids[i], vs[i])`, in order. */
  function EmplaceFirst<V>(m: map<nat, V>, ids: seq<nat>, vs: seq<V>, n: nat): map<nat, V>
    requires n <= |ids| && n <= |vs|
  {
    if n == 0 then m
    else TryEmplace(EmplaceFirst(m, ids, vs, n - 1), ids[n - 1], vs[n - 1])
  }

  /** The keys after the first `n` insertions: the old ones and the first `n` ids. */
  lemma {:induction false} EmplaceFirstKeys<V>(m: map<nat, V>, ids: seq<nat>, vs: seq<V>, n: nat)
    requires n <= |ids| && n <= |vs|
    ensures forall k :: k in EmplaceFirst(m, ids, vs, n) <==> k in m || k in ids[..n]
    ensures forall k :: k in m ==> EmplaceFirst(m, ids, vs, n)[k] == m[k]
  {
    if n > 0 {
      EmplaceFirstKeys(m, ids, vs, n - 1);
      assert ids[..n] == ids[..n - 1] + [ids[n - 1]];
    }
  }

  /** Under distinct keys, into an empty map, each key gets its own value. */
  lemma {:induction false} EmplaceFirstDistinct<V>(ids: seq<nat>, vs: seq<V>, n: nat)
    requires n <= |ids| && n <= |vs|
    requires forall i, j :: 0 <= i < j < n ==> ids[i] != ids[j]
    ensures forall i :: 0 <= i < n ==>
      ids[i] in EmplaceFirst(map[], ids, vs, n) && EmplaceFirst(map[], ids, vs, n)[ids[i]] == vs[i]
  {
    if n > 0 {
      EmplaceFirstDistinct(ids, vs, n - 1);
      EmplaceFirstKeys(map[], ids, vs, n - 1);
      assert ids[n - 1] !in ids[..n - 1];
      assert EmplaceFirst(map[], ids, vs, n) == EmplaceFirst(map[], ids, vs, n - 1)[ids[n - 1] := vs[n - 1]];
    }
  }

  /** Inserting one value per key of a set, into an empty map, gives a map with exactly those keys. */
  lemma EmplaceSortedKeys<W>(keys: seq<nat>, s: set<nat>, vs: seq<W>)
    requires |vs| == |keys| && forall x :: x in keys <==> x in s
    ensures EmplaceFirst(map[], keys, vs, |vs|).Keys == s
  {
    EmplaceFirstKeys(map[], keys, vs, |vs|);
    assert keys[..|vs|] == keys;
  }

  /**
   * Inserting one value per key, in ascending key order, into an empty map
   * leaves under each key the value inserted at its position.
   */
  lemma EmplaceSortedValues<W>(keys: seq<nat>, vs: seq<W>)
    requires |vs| == |keys| && forall i, j :: 0 <= i < j < |keys| ==> keys[i] < keys[j]
    ensures var r := EmplaceFirst(map[], keys, vs, |vs|);
      forall k :: k in r ==> exists i :: 0 <= i < |vs| && keys[i] == k && r[k] == vs[i]
  {
    var r := EmplaceFirst(map[], keys, vs, |vs|);
    EmplaceFirstKeys(map[], keys, vs, |vs|);
    EmplaceFirstDistinct(keys, vs, |vs|);
    assert keys[..|vs|] == keys;
    forall k | k in r
      ensures exists i :: 0 <= i < |vs| && keys[i] == k && r[k] == vs[i]
    {
      var i :| 0 <= i < |keys| && keys[i] == k;
      assert r[k] == vs[i];
    }
  }

  // ---------------------------------------------------------------------
  // Placement of labels and buttons

  /** The labels' contents in the order of `keys`. */
  function Contents(m: map<nat, Label>, keys: seq<nat>): (cs: seq<LabelContent>)
    requires forall k :: k in keys ==> k in m
    ensures |cs| == |keys| && forall i :: 0 <= i < |keys| ==> cs[i] == m[keys[i]].content
  {
    seq(|keys|, i requires 0 <= i < |keys| => m[keys[i]].content)
  }

  /** The labels left after removing `labelId`, in key order. */
  function Remaining(m: map<nat, Label>, labelId: nat): (cs: seq<LabelContent>)
    ensures |cs| == |m.Keys - {labelId}|
    ensures forall i :: 0 <= i < |cs| ==>
      var k := SortedKeys(m.Keys - {labelId})[i]; k != labelId && k in m && cs[i] == m[k].content
  {
    Contents(m, SortedKeys(m.Keys - {labelId}))
  }

  /** Vertices taken by the first `i` labels of `cs`: six per character. */
  function Offset(cs: seq<LabelContent>, i: nat): nat
    requires i <= |cs|
  {
    if i == 0 then 0 else Offset(cs, i - 1) + 6 * |cs[i - 1].text|
  }

  lemma {:induction false} OffsetMonotone(cs: seq<LabelContent>, i: nat, j: nat)
    requires i <= j <= |cs|
    ensures Offset(cs, i) <= Offset(cs, j)
    decreases j - i
  {
    if i < j {
      OffsetMonotone(cs, i, j - 1);
    }
  }

  /**
   * Label `i` of `cs` when the labels are added one after the other from
   * vertex 0, with the `uint32_t` count: it starts after the characters of
   * the labels before it and its last vertex is the one before the next
   * label starts.
   */
  function PlacedLabel(cs: seq<LabelContent>, i: nat): (l: Label)
    requires i < |cs|
    ensures l.content == cs[i]
    ensures Offset(cs, |cs|) < U32_LIMIT ==>
      l.startVertex == Offset(cs, i) && l.startVertex + 6 * |cs[i].text| == Offset(cs, i + 1)
  {
    OffsetMonotone(cs, i + 1, |cs|);
    Label(cs[i], Offset(cs, i) % U32_LIMIT, Sub32(Offset(cs, i + 1) % U32_LIMIT, 1))
  }

  function Placed(cs: seq<LabelContent>): (ls: seq<Label>)
    ensures |ls| == |cs| && forall i :: 0 <= i < |cs| ==> ls[i] == PlacedLabel(cs, i)
  {
    seq(|cs|, i requires 0 <= i < |cs| => PlacedLabel(cs, i))
  }

  /**
   * Buttons added one after the other from vertex 0, six vertices each,
   * with the `uint32_t` count.
   */
  function PlacedButtons(bs: seq<ButtonContent>): (r: seq<Button>)
    ensures |r| == |bs|
    ensures forall i :: 0 <= i < |bs| ==> r[i].content == bs[i]
    ensures 6 * |bs| < U32_LIMIT ==> forall i :: 0 <= i < |bs| ==> r[i] == Button(bs[i], 6 * i, 6 * i + 5)
  {
    seq(|bs|, i requires 0 <= i < |bs| => Button(bs[i], (6 * i) % U32_LIMIT, Sub32((6 * i + 6) % U32_LIMIT, 1)))
  }

  /** The buttons' contents in the order of `keys`. */
  function ButtonContents(m: map<nat, Button>, keys: seq<nat>): (bs: seq<ButtonContent>)
    requires forall k :: k in keys ==> k in m
    ensures |bs| == |keys| && forall i :: 0 <= i < |keys| ==> bs[i] == m[keys[i]].content
  {
    seq(|keys|, i requires 0 <= i < |keys| => m[keys[i]].content)
  }

  /** The buttons left after removing `buttonId`, in key order. */
  function RemainingButtons(m: map<nat, Button>, buttonId: nat): (bs: seq<ButtonContent>)
    ensures |bs| == |m.Keys - {buttonId}|
    ensures forall i :: 0 <= i < |bs| ==>
      var k := SortedKeys(m.Keys - {buttonId})[i]; k != buttonId && k in m && bs[i] == m[k].content
  {
    ButtonContents(m, SortedKeys(m.Keys - {buttonId}))
  }

  // ---------------------------------------------------------------------
  // A range-for over a std::map that its body inserts into

  /** `uint32_t` addition of `b` to a count kept modulo 2^32. */
  lemma AddMod(a: nat, b: nat)
    ensures (a % U32_LIMIT + b) % U32_LIMIT == (a + b) % U32_LIMIT
  {
    var q := a / U32_LIMIT;
    assert a == q * U32_LIMIT + a % U32_LIMIT;
    assert a + b == q * U32_LIMIT + (a % U32_LIMIT + b);
  }

  /** The `uint32_t` vertex count after adding label content `c` at `count`: six per character. */
  function CountAfter(count: u32, c: LabelContent): u32
  {
    (count + 6 * |c.text|) % U32_LIMIT
  }

  /** Rank of an iterator position: 0 before the first key, `k + 1` at key `k`. */
  function Rank(cur: Option<nat>): nat
  {
    if cur.None? then 0 else cur.value + 1
  }

  /** The keys after the iterator position `cur`. */
  function Above(keys: set<nat>, cur: Option<nat>): set<nat>
  {
    set k | k in keys && Rank(cur) <= k
  }

  /**
   * Where `++it` lands in a `std::map` with keys `keys` when the iterator
   * is at key `cur` (`begin()` when `cur` is None): the least key above
   * `cur`, or the end when there is none. Keys inserted above `cur` since
   * the iterator got there are among the candidates.
   */
  function NextKey(keys: set<nat>, cur: Option<nat>): (r: Option<nat>)
    ensures r.Some? ==> r.value in keys && Rank(cur) <= r.value
    ensures r.Some? ==> forall k :: k in keys && Rank(cur) <= k ==> r.value <= k
    ensures r.None? ==> forall k :: k in keys ==> k < Rank(cur)
  {
    var above := Above(keys, cur);
    assert forall k :: k in keys && Rank(cur) <= k ==> k in above;
    if above == {} then None else Some(MinKey(above))
  }

  /** The first `n` values `std::rand()` returns. */
  function RandIds(rand: nat -> u32, n: nat): (ids: seq<nat>)
    ensures |ids| == n && forall j :: 0 <= j < n ==> ids[j] == rand(j)
  {
    seq(n, j requires 0 <= j < n => rand(j) as nat)
  }

  /**
   * The contents the re-adding loop of `RemoveLabel` passes to `AddLabel`,
   * from the map `m`, with the iterator at `cur`, the vertex count `count`
   * and `n` values of `std::rand()` used (`rand(j)` is the `j`-th): the loop
   * takes the least key above `cur`, re-adds that label, which `AddLabel`
   * files under `rand(n)` unless that id is taken, and moves on from the
   * key it took in the map as it now is. A copy filed under a larger id is
   * therefore visited in turn. Ids are 32-bit, so the loop ends.
   */
  function Visits(m: map<nat, Label>, cur: Option<nat>, count: u32, n: nat, rand: nat -> u32)
    : (cs: seq<LabelContent>)
    requires forall k :: k in m ==> k < U32_LIMIT
    requires Rank(cur) <= U32_LIMIT
    decreases U32_LIMIT - Rank(cur)
  {
    match NextKey(m.Keys, cur)
    case None => []
    case Some(k) =>
      var c := m[k].content;
      var next := CountAfter(count, c);
      [c] + Visits(TryEmplace(m, rand(n), Label(c, count, Sub32(next, 1))), Some(k), next, n + 1, rand)
  }

  /** The same for `RemoveButton`, whose `AddButton` counts six vertices per button. */
  function ButtonVisits(m: map<nat, Button>, cur: Option<nat>, count: u32, n: nat, rand: nat -> u32)
    : (bs: seq<ButtonContent>)
    requires forall k :: k in m ==> k < U32_LIMIT
    requires Rank(cur) <= U32_LIMIT
    decreases U32_LIMIT - Rank(cur)
  {
    match NextKey(m.Keys, cur)
    case None => []
    case Some(k) =>
      var b := m[k].content;
      var next := Add32(count, 6);
      [b] + ButtonVisits(TryEmplace(m, rand(n), Button(b, count, Sub32(next, 1))), Some(k), next, n + 1, rand)
  }

  /**
   * The walk re-adds only what was already filed: each content it visits is
   * that of some entry of the map it starts from, whatever the random ids.
   */
  lemma {:induction false} VisitsFromMap(m: map<nat, Label>, cur: Option<nat>, count: u32, n: nat,
                                         rand: nat -> u32, c: LabelContent)
    requires forall k :: k in m ==> k < U32_LIMIT
    requires Rank(cur) <= U32_LIMIT
    requires c in Visits(m, cur, count, n, rand)
    ensures exists j :: j in m && m[j].content == c
    decreases U32_LIMIT - Rank(cur)
  {
    match NextKey(m.Keys, cur)
    case None =>
    case Some(k) =>
      var d := m[k].content;
      var next := CountAfter(count, d);
      var m' := TryEmplace(m, rand(n), Label(d, count, Sub32(next, 1)));
      if c == d {
        assert k in m && m[k].content == c;
      } else {
        VisitsFromMap(m', Some(k), next, n + 1, rand, c);
        var j :| j in m' && m'[j].content == c;
        assert j in m && m[j].content == c;
      }
  }

  /** The same for `RemoveButton`. */
  lemma {:induction false} ButtonVisitsFromMap(m: map<nat, Button>, cur: Option<nat>, count: u32, n: nat,
                                               rand: nat -> u32, b: ButtonContent)
    requires forall k :: k in m ==> k < U32_LIMIT
    requires Rank(cur) <= U32_LIMIT
    requires b in ButtonVisits(m, cur, count, n, rand)
    ensures exists j :: j in m && m[j].content == b
    decreases U32_LIMIT - Rank(cur)
  {
    match NextKey(m.Keys, cur)
    case None =>
    case Some(k) =>
      var d := m[k].content;
      var next := Add32(count, 6);
      var m' := TryEmplace(m, rand(n), Button(d, count, Sub32(next, 1)));
      if b == d {
        assert k in m && m[k].content == b;
      } else {
        ButtonVisitsFromMap(m', Some(k), next, n + 1, rand, b);
        var j :| j in m' && m'[j].content == b;
        assert j in m && m[j].content == b;
      }
  }

  /** From `begin()` every key is ahead. */
  lemma AboveNone(keys: set<nat>)
    ensures Above(keys, None) == keys
  {
  }

  /** Maps agreeing on `keys` give the same contents along them. */
  lemma ContentsAgree(r: map<nat, Label>, m: map<nat, Label>, keys: seq<nat>)
    requires forall k :: k in keys ==> k in r && k in m && r[k] == m[k]
    ensures Contents(r, keys) == Contents(m, keys)
  {
  }

  lemma ButtonContentsAgree(r: map<nat, Button>, m: map<nat, Button>, keys: seq<nat>)
    requires forall k :: k in keys ==> k in r && k in m && r[k] == m[k]
    ensures ButtonContents(r, keys) == ButtonContents(m, keys)
  {
  }

  /** The least key of `keys` at or above the rank of `cur` is where `++it` lands. */
  lemma NextKeyIs(keys: set<nat>, cur: Option<nat>, k: nat)
    requires k in keys && Rank(cur) <= k
    requires forall x :: x in keys && Rank(cur) <= x ==> k <= x
    ensures NextKey(keys, cur) == Some(k)
  {
  }

  /** With no key above `cur` the walk ends. */
  lemma NextKeyNone(keys: set<nat>, cur: Option<nat>)
    requires forall x :: x in keys ==> x < Rank(cur)
    ensures NextKey(keys, cur) == None
  {
  }

  /** The contents under `[k] + keys` are the content under `k`, then those under `keys`. */
  lemma ContentsCons(m: map<nat, Label>, k: nat, keys: seq<nat>)
    requires k in m && forall x :: x in keys ==> x in m
    ensures Contents(m, [k] + keys) == [m[k].content] + Contents(m, keys)
  {
  }

  lemma ButtonContentsCons(m: map<nat, Button>, k: nat, keys: seq<nat>)
    requires k in m && forall x :: x in keys ==> x in m
    ensures ButtonContents(m, [k] + keys) == [m[k].content] + ButtonContents(m, keys)
  {
  }

  /**
   * Past the least key `k` above `cur`, the keys above `k` are the keys
   * above `cur` but `k`, in any map that agrees on the keys above `cur`
   * and gained at most one key `added` below `k`.
   */
  lemma AboveStep(orig: set<nat>, keys: set<nat>, cur: Option<nat>, k: nat, added: nat)
    requires Above(orig, cur) != {} && Above(keys, cur) == Above(orig, cur)
    requires k == MinKey(Above(orig, cur)) && added < k
    ensures Above(keys + {added}, Some(k)) == Above(orig, cur) - {k} == Above(orig, Some(k))
  {
    var s := Above(orig, cur);
    forall x | x in Above(keys + {added}, Some(k))
      ensures x in s - {k}
    {
      assert x in Above(keys, cur);
    }
    forall x | x in s - {k}
      ensures x in Above(keys + {added}, Some(k)) && x in Above(orig, Some(k))
    {
      assert x in Above(keys, cur);
    }
  }

  /**
   * From a position at or past `lo`, when every random id lies below `lo`
   * and `m` keeps every entry of `orig` and no other key above `cur`, the
   * loop re-adds exactly the contents of `orig` above `cur` in key order.
   */
  lemma {:induction false} VisitsAbove(orig: map<nat, Label>, m: map<nat, Label>, cur: Option<nat>, count: u32,
                                       n: nat, rand: nat -> u32, lo: nat)
    requires forall k :: k in m ==> k < U32_LIMIT
    requires Rank(cur) <= U32_LIMIT
    requires forall k :: k in orig ==> k in m && m[k] == orig[k] && lo <= k
    requires Above(m.Keys, cur) == Above(orig.Keys, cur)
    requires forall j :: rand(j) < lo
    ensures Visits(m, cur, count, n, rand) == Contents(orig, SortedKeys(Above(orig.Keys, cur)))
    decreases U32_LIMIT - Rank(cur)
  {
    var s := Above(orig.Keys, cur);
    if s != {} {
      var k := MinKey(s);
      assert NextKey(m.Keys, cur) == Some(k);
      var c := m[k].content;
      var next := CountAfter(count, c);
      var m' := TryEmplace(m, rand(n), Label(c, count, Sub32(next, 1)));
      assert m'.Keys == m.Keys + {rand(n)};
      AboveStep(orig.Keys, m.Keys, cur, k, rand(n));
      VisitsAbove(orig, m', Some(k), next, n + 1, rand, lo);
      ContentsCons(orig, k, SortedKeys(s - {k}));
      calc {
        Visits(m, cur, count, n, rand);
        [c] + Visits(m', Some(k), next, n + 1, rand);
        [orig[k].content] + Contents(orig, SortedKeys(s - {k}));
        Contents(orig, [k] + SortedKeys(s - {k}));
        Contents(orig, SortedKeys(s));
      }
    }
  }

  /**
   * When every random id lies below every key left after the erase, no
   * re-added copy is visited: the loop re-adds the labels left after the
   * erase, each once, in key order.
   */
  lemma VisitsSnapshot(m: map<nat, Label>, labelId: nat, rand: nat -> u32, lo: nat)
    requires forall k :: k in m ==> k < U32_LIMIT
    requires forall k :: k in m && k != labelId ==> lo <= k
    requires forall j :: rand(j) < lo
    ensures Visits(m - {labelId}, None, 0, 0, rand) == Remaining(m, labelId)
  {
    var r := m - {labelId};
    assert r.Keys == m.Keys - {labelId};
    AboveNone(r.Keys);
    VisitsAbove(r, r, None, 0, 0, rand, lo);
    ContentsAgree(r, m, SortedKeys(m.Keys - {labelId}));
  }

  lemma {:induction false} ButtonVisitsAbove(orig: map<nat, Button>, m: map<nat, Button>, cur: Option<nat>,
                                             count: u32, n: nat, rand: nat -> u32, lo: nat)
    requires forall k :: k in m ==> k < U32_LIMIT
    requires Rank(cur) <= U32_LIMIT
    requires forall k :: k in orig ==> k in m && m[k] == orig[k] && lo <= k
    requires Above(m.Keys, cur) == Above(orig.Keys, cur)
    requires forall j :: rand(j) < lo
    ensures ButtonVisits(m, cur, count, n, rand) == ButtonContents(orig, SortedKeys(Above(orig.Keys, cur)))
    decreases U32_LIMIT - Rank(cur)
  {
    var s := Above(orig.Keys, cur);
    if s != {} {
      var k := MinKey(s);
      assert NextKey(m.Keys, cur) == Some(k);
      var b := m[k].content;
      var next := Add32(count, 6);
      var m' := TryEmplace(m, rand(n), Button(b, count, Sub32(next, 1)));
      assert m'.Keys == m.Keys + {rand(n)};
      AboveStep(orig.Keys, m.Keys, cur, k, rand(n));
      ButtonVisitsAbove(orig, m', Some(k), next, n + 1, rand, lo);
      ButtonContentsCons(orig, k, SortedKeys(s - {k}));
    }
  }

  /** The same for `RemoveButton`: with every random id below every key left, each button is re-added once. */
  lemma ButtonVisitsSnapshot(m: map<nat, Button>, buttonId: nat, rand: nat -> u32, lo: nat)
    requires forall k :: k in m ==> k < U32_LIMIT
    requires forall k :: k in m && k != buttonId ==> lo <= k
    requires forall j :: rand(j) < lo
    ensures ButtonVisits(m - {buttonId}, None, 0, 0, rand) == RemainingButtons(m, buttonId)
  {
    var r := m - {buttonId};
    assert r.Keys == m.Keys - {buttonId};
    AboveNone(r.Keys);
    ButtonVisitsAbove(r, r, None, 0, 0, rand, lo);
    ButtonContentsAgree(r, m, SortedKeys(m.Keys - {buttonId}));
  }

  // ---------------------------------------------------------------------
  // What the buffers show

  /** Two buffers agreeing on a range agree on every range inside it. */
  lemma SliceWithin(b1: seq<UIVertex>, b2: seq<UIVertex>, lo: nat, hi: nat, a: nat, b: nat)
    requires lo <= a <= b <= hi <= |b1| == |b2| && b1[lo..hi] == b2[lo..hi]
    ensures b1[a..b] == b2[a..b]
  {
    forall j | 0 <= j < b - a
      ensures b1[a..b][j] == b2[a..b][j]
    {
      assert b1[lo..hi][j + a - lo] == b2[lo..hi][j + a - lo];
    }
  }

  /** A quad stays drawn in a buffer that agrees with the old one on a range holding it. */
  lemma QuadAtWithin(b1: seq<UIVertex>, b2: seq<UIVertex>, lo: nat, hi: nat, at: nat, q: Quad, color: Color)
    requires lo <= at && at + 6 <= hi <= |b1| == |b2| && b2[lo..hi] == b1[lo..hi]
    requires QuadAt(b1, at, q, color)
    ensures QuadAt(b2, at, q, color)
  {
    forall j | at <= j < at + 6
      ensures b2[j] == b1[j]
    {
      assert b2[lo..hi][j - lo] == b1[lo..hi][j - lo];
    }
    QuadAtFrame(b1, b2, at, q, color);
  }

  /** Button `i` of `bs`, for each of the first `n`, is drawn at vertex `6 i`. */
  ghost predicate ButtonsDrawn(buf: seq<UIVertex>, bs: seq<ButtonContent>, n: nat, solidRect: Vec2)
    requires n <= |bs|
  {
    forall i :: 0 <= i < n ==> QuadAt(buf, 6 * i, ButtonQuad(bs[i], solidRect), bs[i].color)
  }

  /** Drawing button `n` after the first `n`, leaving their vertices alone, draws the first `n + 1`. */
  lemma ButtonsDrawnStep(b1: seq<UIVertex>, b2: seq<UIVertex>, bs: seq<ButtonContent>, n: nat, solidRect: Vec2)
    requires n < |bs| && ButtonsDrawn(b1, bs, n, solidRect)
    requires 6 * n <= |b1| == |b2| && b2[..6 * n] == b1[..6 * n]
    requires QuadAt(b2, 6 * n, ButtonQuad(bs[n], solidRect), bs[n].color)
    ensures ButtonsDrawn(b2, bs, n + 1, solidRect)
  {
    forall i | 0 <= i < n
      ensures QuadAt(b2, 6 * i, ButtonQuad(bs[i], solidRect), bs[i].color)
    {
      QuadAtWithin(b1, b2, 0, 6 * n, 6 * i, ButtonQuad(bs[i], solidRect), bs[i].color);
    }
  }

  /** Every character of the label is drawn as its glyph quad from vertex `at`. */
  ghost predicate LabelDrawn(buf: seq<UIVertex>, content: LabelContent, at: nat, extent: Extent2D,
                             layout: (LabelContent, nat, Extent2D) -> Quad)
  {
    at + 6 * |content.text| <= |buf|
    && forall c :: 0 <= c < |content.text| ==> QuadAt(buf, at + 6 * c, layout(content, c, extent), content.color)
  }

  /** A drawn label stays drawn while its vertices are left alone. */
  lemma LabelDrawnFrame(b1: seq<UIVertex>, b2: seq<UIVertex>, content: LabelContent, at: nat, extent: Extent2D,
                        layout: (LabelContent, nat, Extent2D) -> Quad)
    requires LabelDrawn(b1, content, at, extent, layout) && |b1| == |b2|
    requires b2[at..at + 6 * |content.text|] == b1[at..at + 6 * |content.text|]
    ensures LabelDrawn(b2, content, at, extent, layout)
  {
    forall c | 0 <= c < |content.text|
      ensures QuadAt(b2, at + 6 * c, layout(content, c, extent), content.color)
    {
      QuadAtWithin(b1, b2, at, at + 6 * |content.text|, at + 6 * c, layout(content, c, extent), content.color);
    }
  }

  /** The first `n` labels of `cs` are drawn where laying them out from vertex 0 puts them. */
  ghost predicate PlacedDrawn(buf: seq<UIVertex>, cs: seq<LabelContent>, n: nat, extent: Extent2D,
                              layout: (LabelContent, nat, Extent2D) -> Quad)
    requires n <= |cs|
  {
    forall i {:trigger LabelDrawn(buf, cs[i], Offset(cs, i), extent, layout)} :: 0 <= i < n ==>
      LabelDrawn(buf, cs[i], Offset(cs, i), extent, layout)
  }

  /** Labels laid out from vertex 0 stay drawn while the vertices below their total are left alone. */
  lemma PlacedDrawnFrame(b1: seq<UIVertex>, b2: seq<UIVertex>, cs: seq<LabelContent>, n: nat, bound: nat,
                         extent: Extent2D, layout: (LabelContent, nat, Extent2D) -> Quad)
    requires n <= |cs| && PlacedDrawn(b1, cs, n, extent, layout)
    requires Offset(cs, n) <= bound <= |b1| == |b2| && b2[..bound] == b1[..bound]
    ensures PlacedDrawn(b2, cs, n, extent, layout)
  {
    forall i {:trigger LabelDrawn(b2, cs[i], Offset(cs, i), extent, layout)} | 0 <= i < n
      ensures LabelDrawn(b2, cs[i], Offset(cs, i), extent, layout)
    {
      OffsetMonotone(cs, i + 1, n);
      SliceWithin(b2, b1, 0, bound, Offset(cs, i), Offset(cs, i + 1));
      LabelDrawnFrame(b1, b2, cs[i], Offset(cs, i), extent, layout);
    }
  }

  /** Drawing label `n` after the first `n`, leaving their vertices alone, draws the first `n + 1`. */
  lemma PlacedDrawnStep(b1: seq<UIVertex>, b2: seq<UIVertex>, cs: seq<LabelContent>, n: nat,
                        extent: Extent2D, layout: (LabelContent, nat, Extent2D) -> Quad)
    requires n < |cs| && PlacedDrawn(b1, cs, n, extent, layout)
    requires Offset(cs, n) <= |b1| == |b2| && b2[..Offset(cs, n)] == b1[..Offset(cs, n)]
    requires LabelDrawn(b2, cs[n], Offset(cs, n), extent, layout)
    ensures PlacedDrawn(b2, cs, n + 1, extent, layout)
  {
    PlacedDrawnFrame(b1, b2, cs, n, Offset(cs, n), extent, layout);
  }

  /** The vertex ranges of two labels do not meet. */
  predicate Apart(a: Label, b: Label)
  {
    a.startVertex + 6 * |a.content.text| <= b.startVertex || b.startVertex + 6 * |b.content.text| <= a.startVertex
  }

  /** The range of label `k` meets no other label's range. */
  ghost predicate Isolated(labels: map<nat, Label>, k: nat)
    requires k in labels
  {
    forall k' :: k' in labels && k' != k ==> Apart(labels[k], labels[k'])
  }

  /** Redrawing another label leaves an isolated label drawn. */
  lemma RedrawKeepsIsolated(b1: seq<UIVertex>, b2: seq<UIVertex>, labels: map<nat, Label>, k: nat, other: nat,
                            extent: Extent2D, layout: (LabelContent, nat, Extent2D) -> Quad)
    requires k in labels && other in labels && k != other && Isolated(labels, k)
    requires LabelDrawn(b1, labels[k].content, labels[k].startVertex, extent, layout) && |b1| == |b2|
    requires var from, to := labels[other].startVertex, labels[other].startVertex + 6 * |labels[other].content.text|;
      to <= |b1| && b2[..from] == b1[..from] && b2[to..] == b1[to..]
    ensures LabelDrawn(b2, labels[k].content, labels[k].startVertex, extent, layout)
  {
    var at, end := labels[k].startVertex, labels[k].startVertex + 6 * |labels[k].content.text|;
    var from, to := labels[other].startVertex, labels[other].startVertex + 6 * |labels[other].content.text|;
    assert Apart(labels[k], labels[other]);
    if end <= from {
      SliceWithin(b2, b1, 0, from, at, end);
    } else {
      SliceWithin(b2, b1, to, |b1|, at, end);
    }
    LabelDrawnFrame(b1, b2, labels[k].content, at, extent, layout);
  }
  /** Of the labels under the first `n` keys, every isolated one is drawn. */
  ghost predicate IsolatedDrawn(buf: seq<UIVertex>, labels: map<nat, Label>, keys: seq<nat>, n: nat,
                                extent: Extent2D, layout: (LabelContent, nat, Extent2D) -> Quad)
    requires n <= |keys|
  {
    forall i :: 0 <= i < n && keys[i] in labels && Isolated(labels, keys[i]) ==>
      LabelDrawn(buf, labels[keys[i]].content, labels[keys[i]].startVertex, extent, layout)
  }

  /** Redrawing the label under key `n` extends `IsolatedDrawn` by one key. */
  lemma RedrawStep(b1: seq<UIVertex>, b2: seq<UIVertex>, labels: map<nat, Label>, keys: seq<nat>, n: nat,
                   extent: Extent2D, layout: (LabelContent, nat, Extent2D) -> Quad)
    requires n < |keys| && keys[n] in labels && forall i :: 0 <= i < n ==> keys[i] != keys[n]
    requires IsolatedDrawn(b1, labels, keys, n, extent, layout) && |b1| == |b2|
    requires var l := labels[keys[n]]; var to := l.startVertex + 6 * |l.content.text|;
      to <= |b1| && b2[..l.startVertex] == b1[..l.startVertex] && b2[to..] == b1[to..]
      && LabelDrawn(b2, l.content, l.startVertex, extent, layout)
    ensures IsolatedDrawn(b2, labels, keys, n + 1, extent, layout)
  {
    forall i | 0 <= i < n + 1 && keys[i] in labels && Isolated(labels, keys[i])
      ensures LabelDrawn(b2, labels[keys[i]].content, labels[keys[i]].startVertex, extent, layout)
    {
      if i < n {
        RedrawKeepsIsolated(b1, b2, labels, keys[i], keys[n], extent, layout);
      }
    }
  }

  /** With every key of `labels` among `keys`, `IsolatedDrawn` over all keys covers every isolated label. */
  lemma IsolatedDrawnAll(buf: seq<UIVertex>, labels: map<nat, Label>, keys: seq<nat>,
                         extent: Extent2D, layout: (LabelContent, nat, Extent2D) -> Quad)
    requires forall k :: k in labels ==> k in keys
    requires IsolatedDrawn(buf, labels, keys, |keys|, extent, layout)
    ensures forall k :: k in labels && Isolated(labels, k) ==>
      LabelDrawn(buf, labels[k].content, labels[k].startVertex, extent, layout)
  {
    forall k | k in labels && Isolated(labels, k)
      ensures LabelDrawn(buf, labels[k].content, labels[k].startVertex, extent, layout)
    {
      var i :| 0 <= i < |keys| && keys[i] == k;
    }
  }


  /**
   * A map whose every entry is the placed label at its key's position in
   * `keys` shows, in a buffer where the placed labels are drawn, every
   * stored label at its recorded first vertex.
   */
  lemma PlacedEntriesDrawn(keys: seq<nat>, cs: seq<LabelContent>, r: map<nat, Label>, buf: seq<UIVertex>,
                           extent: Extent2D, layout: (LabelContent, nat, Extent2D) -> Quad)
    requires |keys| == |cs| && Offset(cs, |cs|) < U32_LIMIT
    requires forall k :: k in r ==> exists i :: 0 <= i < |cs| && keys[i] == k && r[k] == Placed(cs)[i]
    requires PlacedDrawn(buf, cs, |cs|, extent, layout)
    ensures forall k :: k in r ==> LabelDrawn(buf, r[k].content, r[k].startVertex, extent, layout)
  {
    forall k | k in r
      ensures LabelDrawn(buf, r[k].content, r[k].startVertex, extent, layout)
    {
      var i :| 0 <= i < |cs| && keys[i] == k && r[k] == Placed(cs)[i];
      assert LabelDrawn(buf, cs[i], Offset(cs, i), extent, layout);
    }
  }

  /** The same map keeps, under every key, the content `m` had there. */
  lemma PlacedEntriesContents(keys: seq<nat>, cs: seq<LabelContent>, r: map<nat, Label>, m: map<nat, Label>)
    requires |keys| == |cs| && Offset(cs, |cs|) < U32_LIMIT
    requires forall i :: 0 <= i < |cs| ==> keys[i] in m && cs[i] == m[keys[i]].content
    requires forall k :: k in r ==> exists i :: 0 <= i < |cs| && keys[i] == k && r[k] == Placed(cs)[i]
    ensures forall k :: k in r ==> k in m && r[k].content == m[k].content
  {
    forall k | k in r
      ensures k in m && r[k].content == m[k].content
    {
      var i :| 0 <= i < |cs| && keys[i] == k && r[k] == Placed(cs)[i];
    }
  }

  /**
   * Re-adding contents `cs` in the order of the ascending `keys`, which
   * are the keys of `m` but `labelId`, with `cs[i]` the content under
   * `keys[i]`: the keys are those of `m` but `labelId`, each keeps its
   * content, and each is drawn at its recorded first vertex.
   */
  lemma LabelsRebuiltFrom(m: map<nat, Label>, labelId: nat, keys: seq<nat>, cs: seq<LabelContent>,
                          buf: seq<UIVertex>, extent: Extent2D, layout: (LabelContent, nat, Extent2D) -> Quad)
    requires |keys| == |cs| && Offset(cs, |cs|) < U32_LIMIT
    requires forall x :: x in keys <==> x in m.Keys - {labelId}
    requires forall i, j :: 0 <= i < j < |keys| ==> keys[i] < keys[j]
    requires forall i :: 0 <= i < |cs| ==> keys[i] in m && cs[i] == m[keys[i]].content
    requires PlacedDrawn(buf, cs, |cs|, extent, layout)
    ensures var r := EmplaceFirst(map[], keys, Placed(cs), |cs|);
      r.Keys == m.Keys - {labelId}
      && (forall k :: k in r ==> r[k].content == m[k].content)
      && (forall k :: k in r ==> LabelDrawn(buf, r[k].content, r[k].startVertex, extent, layout))
  {
    var r := EmplaceFirst(map[], keys, Placed(cs), |cs|);
    EmplaceSortedKeys(keys, m.Keys - {labelId}, Placed(cs));
    EmplaceSortedValues(keys, Placed(cs));
    PlacedEntriesDrawn(keys, cs, r, buf, extent, layout);
    PlacedEntriesContents(keys, cs, r, m);
  }

  /**
   * After removing `labelId` and re-adding the remaining labels in key
   * order under their own ids: the ids are the old ones but `labelId`, each
   * label keeps its content, and each is drawn at its recorded first vertex
   * in a buffer where the remaining labels are drawn as laid out.
   */
  lemma RebuiltLabelsDrawn(m: map<nat, Label>, labelId: nat, buf: seq<UIVertex>,
                           extent: Extent2D, layout: (LabelContent, nat, Extent2D) -> Quad)
    requires var cs := Remaining(m, labelId);
      Offset(cs, |cs|) < U32_LIMIT && PlacedDrawn(buf, cs, |cs|, extent, layout)
    ensures var cs := Remaining(m, labelId);
      var r := EmplaceFirst(map[], SortedKeys(m.Keys - {labelId}), Placed(cs), |cs|);
      r.Keys == m.Keys - {labelId}
      && (forall k :: k in r ==> r[k].content == m[k].content)
      && (forall k :: k in r ==> LabelDrawn(buf, r[k].content, r[k].startVertex, extent, layout))
  {
    LabelsRebuiltFrom(m, labelId, SortedKeys(m.Keys - {labelId}), Remaining(m, labelId), buf, extent, layout);
  }

  /**
   * A map whose every entry is the placed button at its key's position in
   * `keys` keeps the contents of `m` and shows, in a buffer where button
   * `i` is drawn at vertex `6 i`, every stored button at its recorded first
   * vertex.
   */
  lemma PlacedButtonEntries(keys: seq<nat>, bs: seq<ButtonContent>, r: map<nat, Button>, m: map<nat, Button>,
                            buf: seq<UIVertex>, solidRect: Vec2)
    requires |keys| == |bs| && 6 * |bs| <= BUFFER_VERTICES
    requires forall i :: 0 <= i < |bs| ==> keys[i] in m && bs[i] == m[keys[i]].content
    requires forall k :: k in r ==> exists i :: 0 <= i < |bs| && keys[i] == k && r[k] == PlacedButtons(bs)[i]
    requires forall i :: 0 <= i < |bs| ==> QuadAt(buf, 6 * i, ButtonQuad(bs[i], solidRect), bs[i].color)
    ensures forall k :: k in r ==>
      k in m && r[k].content == m[k].content
      && QuadAt(buf, r[k].startVertex, ButtonQuad(r[k].content, solidRect), r[k].content.color)
  {
    forall k | k in r
      ensures k in m && r[k].content == m[k].content
      ensures QuadAt(buf, r[k].startVertex, ButtonQuad(r[k].content, solidRect), r[k].content.color)
    {
      var i :| 0 <= i < |bs| && keys[i] == k && r[k] == PlacedButtons(bs)[i];
    }
  }

  /**
   * Re-adding button contents `bs` in the order of the ascending `keys`,
   * which are the keys of `m` but `buttonId`, with `bs[i]` the content
   * under `keys[i]` and drawn at vertex `6 i`: the keys are those of `m`
   * but `buttonId`, each keeps its content, and each is drawn at its
   * recorded first vertex.
   */
  lemma ButtonsRebuiltFrom(m: map<nat, Button>, buttonId: nat, keys: seq<nat>, bs: seq<ButtonContent>,
                           buf: seq<UIVertex>, solidRect: Vec2)
    requires |keys| == |bs| && 6 * |bs| <= BUFFER_VERTICES
    requires forall x :: x in keys <==> x in m.Keys - {buttonId}
    requires forall i, j :: 0 <= i < j < |keys| ==> keys[i] < keys[j]
    requires forall i :: 0 <= i < |bs| ==> keys[i] in m && bs[i] == m[keys[i]].content
    requires forall i :: 0 <= i < |bs| ==> QuadAt(buf, 6 * i, ButtonQuad(bs[i], solidRect), bs[i].color)
    ensures var r := EmplaceFirst(map[], keys, PlacedButtons(bs), |bs|);
      r.Keys == m.Keys - {buttonId}
      && (forall k :: k in r ==> r[k].content == m[k].content)
      && (forall k :: k in r ==> QuadAt(buf, r[k].startVertex, ButtonQuad(r[k].content, solidRect), r[k].content.color))
  {
    var r := EmplaceFirst(map[], keys, PlacedButtons(bs), |bs|);
    EmplaceSortedKeys(keys, m.Keys - {buttonId}, PlacedButtons(bs));
    EmplaceSortedValues(keys, PlacedButtons(bs));
    PlacedButtonEntries(keys, bs, r, m, buf, solidRect);
  }

  /**
   * After removing `buttonId` and re-adding the remaining buttons in key
   * order under their own ids, each at its own range: the ids are the old
   * ones but `buttonId`, each button keeps its content, and each is drawn
   * at its recorded first vertex in a buffer where button `i` of them is
   * drawn at vertex `6 i`.
   */
  lemma RebuiltButtonsDrawn(m: map<nat, Button>, buttonId: nat, buf: seq<UIVertex>, solidRect: Vec2)
    requires var bs := RemainingButtons(m, buttonId);
      6 * |bs| <= BUFFER_VERTICES
      && forall i :: 0 <= i < |bs| ==> QuadAt(buf, 6 * i, ButtonQuad(bs[i], solidRect), bs[i].color)
    ensures var bs := RemainingButtons(m, buttonId);
      var r := EmplaceFirst(map[], SortedKeys(m.Keys - {buttonId}), PlacedButtons(bs), |bs|);
      r.Keys == m.Keys - {buttonId}
      && (forall k :: k in r ==> r[k].content == m[k].content)
      && (forall k :: k in r ==> QuadAt(buf, r[k].startVertex, ButtonQuad(r[k].content, solidRect), r[k].content.color))
  {
    ButtonsRebuiltFrom(m, buttonId, SortedKeys(m.Keys - {buttonId}), RemainingButtons(m, buttonId), buf, solidRect);
  }

  /** The remaining contents of an all-solid map are all solid. */
  lemma RemainingSolid(m: map<nat, Label>, labelId: nat)
    requires forall k :: k in m ==> m[k].content.texture == SolidColor
    ensures var cs := Remaining(m, labelId); forall i :: 0 <= i < |cs| ==> cs[i].texture == SolidColor
  {
  }

  /** The remaining contents of an all-solid map are all solid. */
  lemma RemainingButtonsSolid(m: map<nat, Button>, buttonId: nat)
    requires forall k :: k in m ==> m[k].content.texture == SolidColor
    ensures var bs := RemainingButtons(m, buttonId); forall i :: 0 <= i < |bs| ==> bs[i].texture == SolidColor
  {
  }

  /** Resets the vertices from `from` up to `to` to the default vertex; the rest stays. */
  method ClearVertices(buf: array<UIVertex>, from: nat, to: nat)
    requires to <= buf.Length
    modifies buf
    ensures forall j :: from <= j < to ==> buf[j] == DEFAULT_VERTEX
    ensures forall j :: 0 <= j < buf.Length && !(from <= j < to) ==> buf[j] == old(buf[j])
    ensures from <= buf.Length ==> buf[..from] == old(buf[..from])
    ensures buf[to..] == old(buf[to..])
  {
    var v := from;
    while v < to
      invariant from <= v && (v <= to || v == from)
      invariant forall j :: from <= j < v ==> buf[j] == DEFAULT_VERTEX
      invariant forall j :: 0 <= j < buf.Length && !(from <= j < v) ==> buf[j] == old(buf[j])
    {
      buf[v] := DEFAULT_VERTEX;
      v := v + 1;
    }
    if from <= buf.Length {
      assert forall j :: 0 <= j < from ==> buf[..from][j] == old(buf[..from])[j];
    }
    assert forall j :: 0 <= j < buf.Length - to ==> buf[to..][j] == old(buf[to..])[j];
  }

  /**
   * The clearing loop at the end of both removals: resets the vertices
   * from `from` up to `to`. `past` tells whether the loop runs past the end
   * of the buffer; the vertices inside it are cleared and no other changes.
   */
  method ClearTail(buf: array<UIVertex>, from: nat, to: nat) returns (past: bool)
    modifies buf
    ensures past == (from < to && buf.Length < to)
    ensures forall j :: from <= j < to && j < buf.Length ==> buf[j] == DEFAULT_VERTEX
    ensures forall j :: 0 <= j < buf.Length && !(from <= j < to) ==> buf[j] == old(buf[j])
    ensures from <= buf.Length ==> buf[..from] == old(buf[..from])
  {
    var end := if to <= buf.Length then to else buf.Length;
    ClearVertices(buf, from, end);
    past := from < to && buf.Length < to;
  }

  /** A count below 2^32 is its own `uint32_t` value. */
  lemma ModSmall(x: nat)
    requires x < U32_LIMIT
    ensures x % U32_LIMIT == x
  {
  }

  /** Label `n` as laid out from vertex 0 starts at the count so far and ends before the count after it. */
  lemma PlacedLabelCount(cs: seq<LabelContent>, n: nat)
    requires n < |cs|
    ensures PlacedLabel(cs, n)
      == Label(cs[n], Offset(cs, n) % U32_LIMIT, Sub32(CountAfter(Offset(cs, n) % U32_LIMIT, cs[n]), 1))
    ensures CountAfter(Offset(cs, n) % U32_LIMIT, cs[n]) == Offset(cs, n + 1) % U32_LIMIT
  {
    AddMod(Offset(cs, n), 6 * |cs[n].text|);
  }

  /** Button `n` as laid out from vertex 0 starts at the count so far and ends before the count after it. */
  lemma PlacedButtonCount(bs: seq<ButtonContent>, n: nat)
    requires n < |bs|
    ensures PlacedButtons(bs)[n] == Button(bs[n], (6 * n) % U32_LIMIT, Sub32(Add32((6 * n) % U32_LIMIT, 6), 1))
    ensures Add32((6 * n) % U32_LIMIT, 6) == (6 * (n + 1)) % U32_LIMIT
  {
    AddMod(6 * n, 6);
  }

  /** A walk with a key ahead visits that key's content first and goes on from it. */
  lemma VisitsUnfold(m: map<nat, Label>, cur: Option<nat>, count: u32, n: nat, rand: nat -> u32)
    requires forall k :: k in m ==> k < U32_LIMIT
    requires Rank(cur) <= U32_LIMIT && NextKey(m.Keys, cur).Some?
    ensures var k := NextKey(m.Keys, cur).value;
      k in m && Rank(cur) < Rank(Some(k)) <= U32_LIMIT
      && Visits(m, cur, count, n, rand)
         == [m[k].content]
            + Visits(TryEmplace(m, rand(n), Label(m[k].content, count, Sub32(CountAfter(count, m[k].content), 1))),
                     Some(k), CountAfter(count, m[k].content), n + 1, rand)
  {
  }

  lemma ButtonVisitsUnfold(m: map<nat, Button>, cur: Option<nat>, count: u32, n: nat, rand: nat -> u32)
    requires forall k :: k in m ==> k < U32_LIMIT
    requires Rank(cur) <= U32_LIMIT && NextKey(m.Keys, cur).Some?
    ensures var k := NextKey(m.Keys, cur).value;
      k in m && Rank(cur) < Rank(Some(k)) <= U32_LIMIT
      && ButtonVisits(m, cur, count, n, rand)
         == [m[k].content]
            + ButtonVisits(TryEmplace(m, rand(n), Button(m[k].content, count, Sub32(Add32(count, 6), 1))),
                           Some(k), Add32(count, 6), n + 1, rand)
  {
  }

  /**
   * One turn of the re-adding walk of `RemoveLabel`: with the iterator at
   * `cur`, `n` labels re-added and the count at their total, the walk takes
   * the least key `k` above `cur`, re-adds label `n` of the visits, files it
   * as laid out from vertex 0, and goes on from `k`.
   */
  lemma VisitsStep(cs: seq<LabelContent>, m: map<nat, Label>, cur: Option<nat>, count: u32, n: nat,
                   rand: nat -> u32)
    requires forall k :: k in m ==> k < U32_LIMIT
    requires Rank(cur) <= U32_LIMIT && NextKey(m.Keys, cur).Some?
    requires n <= |cs| && cs == cs[..n] + Visits(m, cur, count, n, rand)
    requires count == Offset(cs, n) % U32_LIMIT
    ensures var k := NextKey(m.Keys, cur).value;
      var c := m[k].content;
      n < |cs| && k in m && cs[n] == c && Rank(cur) < Rank(Some(k)) <= U32_LIMIT
      && PlacedLabel(cs, n) == Label(c, count, Sub32(CountAfter(count, c), 1))
      && CountAfter(count, c) == Offset(cs, n + 1) % U32_LIMIT
      && cs == cs[..n + 1]
        + Visits(TryEmplace(m, rand(n), Label(c, count, Sub32(CountAfter(count, c), 1))), Some(k),
                 CountAfter(count, c), n + 1, rand)
  {
    var k := NextKey(m.Keys, cur).value;
    var c := m[k].content;
    var rest := Visits(TryEmplace(m, rand(n), Label(c, count, Sub32(CountAfter(count, c), 1))), Some(k),
                       CountAfter(count, c), n + 1, rand);
    VisitsUnfold(m, cur, count, n, rand);
    assert cs == cs[..n] + [c] + rest;
    assert cs[n] == c;
    assert cs[..n + 1] == cs[..n] + [c];
    PlacedLabelCount(cs, n);
  }

  /** The same for `RemoveButton`. */
  lemma ButtonVisitsStep(bs: seq<ButtonContent>, m: map<nat, Button>, cur: Option<nat>, count: u32, n: nat,
                         rand: nat -> u32)
    requires forall k :: k in m ==> k < U32_LIMIT
    requires Rank(cur) <= U32_LIMIT && NextKey(m.Keys, cur).Some?
    requires n <= |bs| && bs == bs[..n] + ButtonVisits(m, cur, count, n, rand)
    requires count == (6 * n) % U32_LIMIT
    ensures var k := NextKey(m.Keys, cur).value;
      n < |bs| && k in m && bs[n] == m[k].content && Rank(cur) < Rank(Some(k)) <= U32_LIMIT
      && PlacedButtons(bs)[n] == Button(bs[n], count, Sub32(Add32(count, 6), 1))
      && Add32(count, 6) == (6 * (n + 1)) % U32_LIMIT
      && bs == bs[..n + 1]
        + ButtonVisits(TryEmplace(m, rand(n), PlacedButtons(bs)[n]), Some(k), Add32(count, 6), n + 1, rand)
  {
    var k := NextKey(m.Keys, cur).value;
    var b := m[k].content;
    var rest := ButtonVisits(TryEmplace(m, rand(n), Button(b, count, Sub32(Add32(count, 6), 1))), Some(k),
                             Add32(count, 6), n + 1, rand);
    ButtonVisitsUnfold(m, cur, count, n, rand);
    assert bs == bs[..n] + [b] + rest;
    assert bs[n] == b;
    assert bs[..n + 1] == bs[..n] + [b];
    PlacedButtonCount(bs, n);
  }

  /**
   * The values the range-for of `RemoveLabel` has reached after `n` turns
   * at iterator `cur`: the labels map `m`, the count and the overrun flag,
   * with `cs` the contents the whole walk visits.
   */
  ghost predicate WalkState(base: map<nat, Label>, wasOverrun: bool, cs: seq<LabelContent>, cur: Option<nat>,
                            n: nat, rand: nat -> u32, m: map<nat, Label>, count: u32, overrun: bool)
  {
    (forall k :: k in m ==> k < U32_LIMIT) && Rank(cur) <= U32_LIMIT
    && n <= |cs| && cs == cs[..n] + Visits(m, cur, count, n, rand)
    && count == Offset(cs, n) % U32_LIMIT
    && m == EmplaceFirst(base, RandIds(rand, |cs|), Placed(cs), n)
    && overrun == (wasOverrun || BUFFER_VERTICES < Offset(cs, n))
  }

  /**
   * One turn of that walk: `AddLabel` of the content at the next key `k`,
   * filed under `rand(n)`, leads to the state after `n + 1` turns at `k`.
   */
  lemma WalkStateStep(base: map<nat, Label>, wasOverrun: bool, cs: seq<LabelContent>, cur: Option<nat>,
                      n: nat, rand: nat -> u32, m: map<nat, Label>, count: u32, overrun: bool)
    requires WalkState(base, wasOverrun, cs, cur, n, rand, m, count, overrun) && NextKey(m.Keys, cur).Some?
    ensures var k := NextKey(m.Keys, cur).value;
      var c := m[k].content;
      k in m && n < |cs| && cs[n] == c && Rank(cur) < Rank(Some(k)) <= U32_LIMIT
      && (!overrun ==> count == Offset(cs, n))
      && WalkState(base, wasOverrun, cs, Some(k), n + 1, rand,
                   TryEmplace(m, rand(n), Label(c, count, Sub32(CountAfter(count, c), 1))),
                   CountAfter(count, c), overrun || BUFFER_VERTICES < count + 6 * |c.text|)
  {
    var k := NextKey(m.Keys, cur).value;
    var c := m[k].content;
    var next := CountAfter(count, c);
    var m' := TryEmplace(m, rand(n), Label(c, count, Sub32(next, 1)));
    VisitsStep(cs, m, cur, count, n, rand);
    TryEmplaceBelow(m, rand(n), Label(c, count, Sub32(next, 1)), U32_LIMIT);
    assert Placed(cs)[n] == PlacedLabel(cs, n);
    EmplaceNext(base, RandIds(rand, |cs|), Placed(cs), n, m, rand(n), Label(c, count, Sub32(next, 1)));
    OverrunStep(cs, n, count, overrun, wasOverrun);
  }

  /** `try_emplace` of a key below `bound` into a map whose keys are below `bound` keeps them below it. */
  lemma TryEmplaceBelow<V>(m: map<nat, V>, k: nat, v: V, bound: nat)
    requires k < bound && forall j :: j in m ==> j < bound
    ensures forall j :: j in TryEmplace(m, k, v) ==> j < bound
  {
  }

  /** One more `try_emplace` extends the first `n` insertions to the first `n + 1`. */
  lemma EmplaceNext<V>(base: map<nat, V>, ids: seq<nat>, vs: seq<V>, n: nat, m: map<nat, V>, id: nat, v: V)
    requires n < |ids| && n < |vs| && m == EmplaceFirst(base, ids, vs, n) && ids[n] == id && vs[n] == v
    ensures TryEmplace(m, id, v) == EmplaceFirst(base, ids, vs, n + 1)
  {
  }

  /**
   * Adding label `n` overruns the buffer exactly when the labels so far
   * already did or the first `n + 1` go past its end.
   */
  lemma OverrunStep(cs: seq<LabelContent>, n: nat, count: u32, overrun: bool, wasOverrun: bool)
    requires n < |cs| && overrun == (wasOverrun || BUFFER_VERTICES < Offset(cs, n))
    requires count == Offset(cs, n) % U32_LIMIT
    ensures !overrun ==> count == Offset(cs, n)
    ensures (overrun || BUFFER_VERTICES < count + 6 * |cs[n].text|) == (wasOverrun || BUFFER_VERTICES < Offset(cs, n + 1))
  {
    if !overrun {
      ModSmall(Offset(cs, n));
    }
  }

  /** `UIPipeline`. */
  class UIPipeline {
    var savedWindowExtents: Extent2D
    var labelVertexCount: u32
    const labelVertexBuffer: array<UIVertex>
    var labels: map<nat, Label>
    var buttonVertexCount: u32
    const buttonVertexBuffer: array<UIVertex>
    var buttons: map<nat, Button>
    /**
     * Set once a write has gone past the end of a vertex buffer. Behaviour
     * is undefined from then on: the counts and maps are still followed,
     * the buffers' contents no longer are.
     */
    var overrun: bool
    /** Glyph quad of character `c` of a label for given window extents (font metrics, floats). */
    const glyphLayout: (LabelContent, nat, Extent2D) -> Quad
    /** `GetSolidRect()` of the font. */
    const solidRect: Vec2

    /**
     * The buffers have their fixed size, ids are 32-bit, every stored label
     * and button is a solid-colour one, and until a write has gone past the
     * end the label count and every label's range lie inside the label
     * buffer. The button count is not bounded: `AddButton` only ever writes
     * vertices 0 to 5.
     */
    predicate Valid()
      reads this
    {
      labelVertexBuffer.Length == BUFFER_VERTICES && buttonVertexBuffer.Length == BUFFER_VERTICES
      && labelVertexBuffer != buttonVertexBuffer
      && (forall k :: k in labels ==> k < U32_LIMIT && labels[k].content.texture == SolidColor)
      && (forall k :: k in buttons ==> k < U32_LIMIT && buttons[k].content.texture == SolidColor)
      && (!overrun ==>
            labelVertexCount <= BUFFER_VERTICES
            && forall k :: k in labels ==> labels[k].startVertex + 6 * |labels[k].content.text| <= BUFFER_VERTICES)
    }

    constructor(layout: (LabelContent, nat, Extent2D) -> Quad, solid: Vec2)
      ensures Valid() && !overrun
      ensures labelVertexCount == 0 && buttonVertexCount == 0 && labels == map[] && buttons == map[]
      ensures savedWindowExtents == DEFAULT_EXTENT && glyphLayout == layout && solidRect == solid
      ensures fresh(labelVertexBuffer) && fresh(buttonVertexBuffer)
      ensures forall j :: 0 <= j < BUFFER_VERTICES ==>
        labelVertexBuffer[j] == DEFAULT_VERTEX && buttonVertexBuffer[j] == DEFAULT_VERTEX
    {
      savedWindowExtents := DEFAULT_EXTENT;
      labelVertexCount, buttonVertexCount := 0, 0;
      labelVertexBuffer := new UIVertex[BUFFER_VERTICES](_ => DEFAULT_VERTEX);
      buttonVertexBuffer := new UIVertex[BUFFER_VERTICES](_ => DEFAULT_VERTEX);
      labels, buttons := map[], map[];
      overrun := false;
      glyphLayout, solidRect := layout, solid;
    }

    /** Writes the glyph quad of each character, character `c` at vertex `at + 6 c`; nothing else changes. */
    method DrawLabelChars(content: LabelContent, at: nat, extent: Extent2D)
      requires at + 6 * |content.text| <= labelVertexBuffer.Length
      modifies labelVertexBuffer
      ensures LabelDrawn(labelVertexBuffer[..], content, at, extent, glyphLayout)
      ensures labelVertexBuffer[..at] == old(labelVertexBuffer[..at])
      ensures labelVertexBuffer[at + 6 * |content.text|..] == old(labelVertexBuffer[at + 6 * |content.text|..])
    {
      var c := 0;
      while c < |content.text|
        invariant 0 <= c <= |content.text|
        invariant forall c' :: 0 <= c' < c ==>
          QuadAt(labelVertexBuffer[..], at + 6 * c', glyphLayout(content, c', extent), content.color)
        invariant forall j :: 0 <= j < labelVertexBuffer.Length && !(at <= j < at + 6 * c) ==>
          labelVertexBuffer[j] == old(labelVertexBuffer[j])
      {
        ghost var before := labelVertexBuffer[..];
        CreateQuad(labelVertexBuffer, at + 6 * c, glyphLayout(content, c, extent), content.color);
        forall c' | 0 <= c' < c
          ensures QuadAt(labelVertexBuffer[..], at + 6 * c', glyphLayout(content, c', extent), content.color)
        {
          QuadAtFrame(before, labelVertexBuffer[..], at + 6 * c', glyphLayout(content, c', extent), content.color);
        }
        c := c + 1;
      }
      assert forall j :: 0 <= j < at ==> labelVertexBuffer[..at][j] == old(labelVertexBuffer[..at])[j];
      ghost var end := at + 6 * |content.text|;
      assert forall j :: 0 <= j < labelVertexBuffer.Length - end ==>
        labelVertexBuffer[end..][j] == old(labelVertexBuffer[end..])[j];
    }

    /**
     * `AddLabel`: a solid-colour label records the current vertex count as
     * its first vertex, the `uint32_t` count grows by six per character, the
     * label records the vertex before the new count as its last and is
     * filed under `id` (the random id) unless that id is taken; the id is
     * returned. The characters are drawn from the old count when they fit
     * in the buffer; when they do not, the writes go past its end. Other
     * textures are refused with the invalid id and change nothing.
     */
    method AddLabel(content: LabelContent, id: u32) returns (labelId: nat)
      requires Valid()
      modifies this`labelVertexCount, this`labels, this`overrun, labelVertexBuffer
      ensures Valid()
      ensures content.texture != SolidColor ==>
        labelId == INVALID_LABEL_ID && labelVertexCount == old(labelVertexCount) && labels == old(labels)
        && overrun == old(overrun) && labelVertexBuffer[..] == old(labelVertexBuffer[..])
      ensures content.texture == SolidColor ==>
        labelId == id
        && labelVertexCount == CountAfter(old(labelVertexCount), content)
        && labels == TryEmplace(old(labels), id, Label(content, old(labelVertexCount), Sub32(labelVertexCount, 1)))
        && overrun == (old(overrun) || BUFFER_VERTICES < old(labelVertexCount) + 6 * |content.text|)
      ensures content.texture == SolidColor && old(labelVertexCount) + 6 * |content.text| <= BUFFER_VERTICES ==>
        labelVertexCount == old(labelVertexCount) + 6 * |content.text|
        && LabelDrawn(labelVertexBuffer[..], content, old(labelVertexCount), savedWindowExtents, glyphLayout)
        && labelVertexBuffer[..old(labelVertexCount)] == old(labelVertexBuffer[..labelVertexCount])
        && labelVertexBuffer[labelVertexCount..] == old(labelVertexBuffer[..])[labelVertexCount..]
    {
      if content.texture != SolidColor {
        return INVALID_LABEL_ID;
      }
      var start := labelVertexCount;
      if start + 6 * |content.text| <= BUFFER_VERTICES {
        DrawLabelChars(content, start, savedWindowExtents);
      } else {
        overrun := true;
      }
      labelVertexCount := CountAfter(start, content);
      labels := TryEmplace(labels, id, Label(content, start, Sub32(labelVertexCount, 1)));
      labelId := id;
    }

    /**
     * The re-adding loop of the intended removal: adds each content in turn
     * under the matching id, so that from a zero count they end up laid out
     * from vertex 0 and drawn there.
     */
    method AddLabels(cs: seq<LabelContent>, ids: seq<nat>)
      requires Valid() && labelVertexCount == 0
      requires |ids| == |cs| && Offset(cs, |cs|) <= BUFFER_VERTICES
      requires forall i :: 0 <= i < |ids| ==> ids[i] < U32_LIMIT
      requires forall i :: 0 <= i < |cs| ==> cs[i].texture == SolidColor
      modifies this`labelVertexCount, this`labels, this`overrun, labelVertexBuffer
      ensures Valid() && overrun == old(overrun)
      ensures labelVertexCount == Offset(cs, |cs|)
      ensures labels == EmplaceFirst(old(labels), ids, Placed(cs), |cs|)
      ensures PlacedDrawn(labelVertexBuffer[..], cs, |cs|, savedWindowExtents, glyphLayout)
    {
      var i := 0;
      while i < |cs|
        invariant 0 <= i <= |cs| && Valid() && overrun == old(overrun)
        invariant labelVertexCount == Offset(cs, i)
        invariant labels == EmplaceFirst(old(labels), ids, Placed(cs), i)
        invariant PlacedDrawn(labelVertexBuffer[..], cs, i, savedWindowExtents, glyphLayout)
      {
        OffsetMonotone(cs, i + 1, |cs|);
        AddPlacedLabel(cs, ids[i], i);
        i := i + 1;
      }
    }

    /** One turn of `AddLabels`: label `i` is filed as laid out and drawn after the first `i`. */
    method AddPlacedLabel(cs: seq<LabelContent>, id: nat, i: nat)
      requires Valid() && i < |cs| && id < U32_LIMIT && cs[i].texture == SolidColor
      requires labelVertexCount == Offset(cs, i) && Offset(cs, i + 1) <= BUFFER_VERTICES
      requires PlacedDrawn(labelVertexBuffer[..], cs, i, savedWindowExtents, glyphLayout)
      modifies this`labelVertexCount, this`labels, this`overrun, labelVertexBuffer
      ensures Valid() && overrun == old(overrun)
      ensures labelVertexCount == Offset(cs, i + 1)
      ensures labels == TryEmplace(old(labels), id, Placed(cs)[i])
      ensures PlacedDrawn(labelVertexBuffer[..], cs, i + 1, savedWindowExtents, glyphLayout)
    {
      PlacedLabelCount(cs, i);
      ghost var before := labelVertexBuffer[..];
      var _ := AddLabel(cs[i], id);
      PlacedDrawnStep(before, labelVertexBuffer[..], cs, i, savedWindowExtents, glyphLayout);
    }

    /**
     * The tail of the intended removal: starts from the map `base` and a
     * zero count, re-adds the contents `cs` under `ids` in turn, and resets
     * the vertices between the new count and the old one.
     */
    method RebuildLabels(base: map<nat, Label>, cs: seq<LabelContent>, ids: seq<nat>)
      requires Valid()
      requires forall k :: k in base ==> k in labels && base[k] == labels[k]
      requires |ids| == |cs| && Offset(cs, |cs|) <= BUFFER_VERTICES
      requires forall i :: 0 <= i < |ids| ==> ids[i] < U32_LIMIT
      requires forall i :: 0 <= i < |cs| ==> cs[i].texture == SolidColor
      modifies this`labelVertexCount, this`labels, this`overrun, labelVertexBuffer
      ensures Valid() && overrun == old(overrun)
      ensures labelVertexCount == Offset(cs, |cs|)
      ensures labels == EmplaceFirst(base, ids, Placed(cs), |cs|)
      ensures PlacedDrawn(labelVertexBuffer[..], cs, |cs|, savedWindowExtents, glyphLayout)
      ensures forall j :: labelVertexCount <= j < old(labelVertexCount) && j < BUFFER_VERTICES ==>
        labelVertexBuffer[j] == DEFAULT_VERTEX
    {
      labels := base;
      var lastVertexCount := labelVertexCount;
      labelVertexCount := 0;
      AddLabels(cs, ids);
      ghost var drawn := labelVertexBuffer[..];
      var past := ClearTail(labelVertexBuffer, labelVertexCount, lastVertexCount);
      overrun := overrun || past;
      PlacedDrawnFrame(drawn, labelVertexBuffer[..], cs, |cs|, labelVertexCount, savedWindowExtents, glyphLayout);
    }

    /**
     * Where the range-for of `RemoveLabel` stands with the iterator at
     * `cur` after `n` calls: the visits still to come are the rest of `cs`,
     * the count is the `uint32_t` total of the first `n`, which are filed
     * over `base` as laid out from vertex 0 and, unless a write went past
     * the end of the buffer, drawn there.
     */
    ghost predicate LabelWalk(base: map<nat, Label>, wasOverrun: bool, cs: seq<LabelContent>, cur: Option<nat>,
                              n: nat, rand: nat -> u32)
      reads this, labelVertexBuffer
    {
      Valid() && WalkState(base, wasOverrun, cs, cur, n, rand, labels, labelVertexCount, overrun)
      && (!overrun ==> n <= |cs| && PlacedDrawn(labelVertexBuffer[..], cs, n, savedWindowExtents, glyphLayout))
    }

    /** One turn of the range-for of `RemoveLabel`: re-adds the label at the next key and moves there. */
    method ReAddNextLabel(ghost base: map<nat, Label>, ghost wasOverrun: bool, ghost cs: seq<LabelContent>,
                          cur: Option<nat>, n: nat, rand: nat -> u32) returns (next: Option<nat>)
      requires LabelWalk(base, wasOverrun, cs, cur, n, rand) && NextKey(labels.Keys, cur).Some?
      modifies this`labelVertexCount, this`labels, this`overrun, labelVertexBuffer
      ensures LabelWalk(base, wasOverrun, cs, next, n + 1, rand) && Rank(cur) < Rank(next) <= U32_LIMIT
    {
      var k := NextKey(labels.Keys, cur).value;
      WalkStateStep(base, wasOverrun, cs, cur, n, rand, labels, labelVertexCount, overrun);
      ghost var before := labelVertexBuffer[..];
      var _ := AddLabel(labels[k].content, rand(n));
      if !overrun {
        PlacedDrawnStep(before, labelVertexBuffer[..], cs, n, savedWindowExtents, glyphLayout);
      }
      next := Some(k);
    }

    /**
     * The range-for of `RemoveLabel`, from a zero count: re-adds the
     * current label through `AddLabel`, which files it under the next random
     * id (`rand(n)` for the `n`-th call) while its old entry stays, and
     * moves on in the map as it now is (`Visits`). The labels visited are
     * laid out from vertex 0 with the `uint32_t` count, filed in turn, and
     * drawn unless a write went past the end of the buffer.
     */
    method ReAddLabels(rand: nat -> u32)
      requires Valid() && labelVertexCount == 0
      modifies this`labelVertexCount, this`labels, this`overrun, labelVertexBuffer
      ensures Valid()
      ensures var cs := Visits(old(labels), None, 0, 0, rand);
        labelVertexCount == Offset(cs, |cs|) % U32_LIMIT
        && labels == EmplaceFirst(old(labels), RandIds(rand, |cs|), Placed(cs), |cs|)
        && overrun == (old(overrun) || BUFFER_VERTICES < Offset(cs, |cs|))
        && (!overrun ==> PlacedDrawn(labelVertexBuffer[..], cs, |cs|, savedWindowExtents, glyphLayout))
    {
      ghost var cs := Visits(labels, None, 0, 0, rand);
      LabelWalkStart(rand);
      var cur: Option<nat> := None;
      var n := 0;
      while NextKey(labels.Keys, cur).Some?
        invariant LabelWalk(old(labels), old(overrun), cs, cur, n, rand)
        decreases U32_LIMIT - Rank(cur)
      {
        cur := ReAddNextLabel(old(labels), old(overrun), cs, cur, n, rand);
        n := n + 1;
      }
      LabelWalkEnd(old(labels), old(overrun), cs, cur, n, rand);
    }

    /** The range-for of `RemoveLabel` starts at `begin()` with nothing re-added. */
    lemma LabelWalkStart(rand: nat -> u32)
      requires Valid() && labelVertexCount == 0
      ensures LabelWalk(labels, overrun, Visits(labels, None, 0, 0, rand), None, 0, rand)
    {
    }

    /** When `++it` reaches the end, every visit has been made. */
    lemma LabelWalkEnd(base: map<nat, Label>, wasOverrun: bool, cs: seq<LabelContent>, cur: Option<nat>, n: nat,
                       rand: nat -> u32)
      requires LabelWalk(base, wasOverrun, cs, cur, n, rand) && NextKey(labels.Keys, cur).None?
      ensures Valid() && n == |cs|
      ensures labelVertexCount == Offset(cs, |cs|) % U32_LIMIT
      ensures labels == EmplaceFirst(base, RandIds(rand, |cs|), Placed(cs), |cs|)
      ensures overrun == (wasOverrun || BUFFER_VERTICES < Offset(cs, |cs|))
      ensures !overrun ==> PlacedDrawn(labelVertexBuffer[..], cs, |cs|, savedWindowExtents, glyphLayout)
    {
      assert Visits(labels, cur, labelVertexCount, n, rand) == [];
    }

    /**
     * `RemoveLabel` as written: erases the id, resets the count, re-adds
     * the labels as `ReAddLabels` walks the map, and finally resets the
     * vertices between the new and the old count.
     */
    method RemoveLabel(labelId: nat, rand: nat -> u32)
      requires Valid()
      modifies this`labelVertexCount, this`labels, this`overrun, labelVertexBuffer
      ensures Valid()
      ensures var cs := Visits(old(labels) - {labelId}, None, 0, 0, rand);
        labelVertexCount == Offset(cs, |cs|) % U32_LIMIT
        && labels == EmplaceFirst(old(labels) - {labelId}, RandIds(rand, |cs|), Placed(cs), |cs|)
        && overrun == (old(overrun) || BUFFER_VERTICES < Offset(cs, |cs|))
        && (!overrun ==> PlacedDrawn(labelVertexBuffer[..], cs, |cs|, savedWindowExtents, glyphLayout))
      ensures !overrun ==>
        forall j :: labelVertexCount <= j < old(labelVertexCount) ==> labelVertexBuffer[j] == DEFAULT_VERTEX
    {
      labels := labels - {labelId};
      var lastVertexCount := labelVertexCount;
      labelVertexCount := 0;
      ghost var cs := Visits(labels, None, 0, 0, rand);
      ReAddLabels(rand);
      if !overrun {
        ModSmall(Offset(cs, |cs|));
      }
      ghost var drawn := labelVertexBuffer[..];
      var past := ClearTail(labelVertexBuffer, labelVertexCount, lastVertexCount);
      overrun := overrun || past;
      if !overrun {
        assert labelVertexCount == Offset(cs, |cs|) && labelVertexCount <= BUFFER_VERTICES;
        assert labelVertexBuffer[..][..labelVertexCount] == drawn[..labelVertexCount];
        PlacedDrawnFrame(drawn, labelVertexBuffer[..], cs, |cs|, labelVertexCount, savedWindowExtents, glyphLayout);
      }
    }

    /**
     * The intended removal: the remaining labels keep their ids and their
     * contents, are laid out again from vertex 0 in key order, and every
     * stored label is drawn at its recorded first vertex; the vertices past
     * the new count are reset.
     */
    method RemoveLabelKeepingIds(labelId: nat)
      requires Valid()
      requires var cs := Remaining(labels, labelId); Offset(cs, |cs|) <= BUFFER_VERTICES
      modifies this`labelVertexCount, this`labels, this`overrun, labelVertexBuffer
      ensures Valid() && overrun == old(overrun)
      ensures labels.Keys == old(labels).Keys - {labelId}
      ensures forall k :: k in labels ==> labels[k].content == old(labels)[k].content
      ensures forall k :: k in labels ==>
        LabelDrawn(labelVertexBuffer[..], labels[k].content, labels[k].startVertex, savedWindowExtents, glyphLayout)
      ensures var cs := Remaining(old(labels), labelId); labelVertexCount == Offset(cs, |cs|)
      ensures forall j :: labelVertexCount <= j < old(labelVertexCount) && j < BUFFER_VERTICES ==>
        labelVertexBuffer[j] == DEFAULT_VERTEX
    {
      var keys := SortedKeys(labels.Keys - {labelId});
      var cs := Remaining(labels, labelId);
      RemainingSolid(labels, labelId);
      RebuildLabels(map[], cs, keys);
      RebuiltLabelsDrawn(old(labels), labelId, labelVertexBuffer[..], savedWindowExtents, glyphLayout);
    }

    /**
     * The loop of `Resized`: redraws the characters of the label under each
     * of `keys` in turn, at its recorded first vertex, for `extent`.
     */
    method RedrawLabels(keys: seq<nat>, extent: Extent2D)
      requires Valid() && !overrun
      requires forall k :: k in keys ==> k in labels
      requires forall i, j :: 0 <= i < j < |keys| ==> keys[i] != keys[j]
      modifies labelVertexBuffer
      ensures IsolatedDrawn(labelVertexBuffer[..], labels, keys, |keys|, extent, glyphLayout)
    {
      var i := 0;
      while i < |keys|
        invariant 0 <= i <= |keys|
        invariant IsolatedDrawn(labelVertexBuffer[..], labels, keys, i, extent, glyphLayout)
      {
        var current := labels[keys[i]];
        ghost var before := labelVertexBuffer[..];
        DrawLabelChars(current.content, current.startVertex, extent);
        RedrawStep(before, labelVertexBuffer[..], labels, keys, i, extent, glyphLayout);
        i := i + 1;
      }
    }

    /**
     * `Resized`: stores the new extents and redraws every label's
     * characters at its recorded first vertex, in key order; no count and
     * no map changes. A label whose range meets no other label's range ends
     * up drawn for the new extents. Once a write has gone past the end of a
     * buffer the redraw is not followed.
     */
    method Resized(windowExtents: Extent2D)
      requires Valid()
      modifies this`savedWindowExtents, labelVertexBuffer
      ensures Valid() && savedWindowExtents == windowExtents
      ensures !overrun ==> forall k :: k in labels && Isolated(labels, k) ==>
        LabelDrawn(labelVertexBuffer[..], labels[k].content, labels[k].startVertex, windowExtents, glyphLayout)
    {
      savedWindowExtents := windowExtents;
      if !overrun {
        var keys := SortedKeys(labels.Keys);
        RedrawLabels(keys, windowExtents);
        IsolatedDrawnAll(labelVertexBuffer[..], labels, keys, windowExtents, glyphLayout);
      }
    }

    /**
     * `AddButton` as written: a solid-colour button records the current
     * count as its first vertex, six more vertices are counted (`uint32_t`)
     * and the vertex before the new count is its last, but its quad is
     * written at the start of the buffer. Other textures are refused with
     * the invalid id.
     */
    method AddButton(content: ButtonContent, id: u32) returns (buttonId: nat)
      requires Valid()
      modifies this`buttonVertexCount, this`buttons, buttonVertexBuffer
      ensures Valid()
      ensures content.texture != SolidColor ==>
        buttonId == INVALID_BUTTON_ID && buttonVertexCount == old(buttonVertexCount) && buttons == old(buttons)
        && buttonVertexBuffer[..] == old(buttonVertexBuffer[..])
      ensures content.texture == SolidColor ==>
        buttonId == id
        && buttonVertexCount == Add32(old(buttonVertexCount), 6)
        && buttons == TryEmplace(old(buttons), id, Button(content, old(buttonVertexCount), Sub32(buttonVertexCount, 1)))
        && QuadAt(buttonVertexBuffer[..], 0, ButtonQuad(content, solidRect), content.color)
        && buttonVertexBuffer[6..] == old(buttonVertexBuffer[6..])
    {
      if content.texture != SolidColor {
        return INVALID_BUTTON_ID;
      }
      var start := buttonVertexCount;
      CreateQuad(buttonVertexBuffer, 0, ButtonQuad(content, solidRect), content.color);
      assert forall j :: 0 <= j < buttonVertexBuffer.Length - 6 ==>
        buttonVertexBuffer[6..][j] == old(buttonVertexBuffer[6..])[j];
      buttonVertexCount := Add32(start, 6);
      buttons := TryEmplace(buttons, id, Button(content, start, Sub32(buttonVertexCount, 1)));
      buttonId := id;
    }

    /**
     * The intended `AddButton`: the quad is written at the button's own
     * first vertex when it fits in the buffer; a button past the end of the
     * buffer writes past it.
     */
    method AddButtonInPlace(content: ButtonContent, id: u32) returns (buttonId: nat)
      requires Valid()
      modifies this`buttonVertexCount, this`buttons, this`overrun, buttonVertexBuffer
      ensures Valid()
      ensures content.texture != SolidColor ==>
        buttonId == INVALID_BUTTON_ID && buttonVertexCount == old(buttonVertexCount) && buttons == old(buttons)
        && overrun == old(overrun) && buttonVertexBuffer[..] == old(buttonVertexBuffer[..])
      ensures content.texture == SolidColor ==>
        buttonId == id
        && buttonVertexCount == Add32(old(buttonVertexCount), 6)
        && buttons == TryEmplace(old(buttons), id, Button(content, old(buttonVertexCount), Sub32(buttonVertexCount, 1)))
        && overrun == (old(overrun) || BUFFER_VERTICES < old(buttonVertexCount) + 6)
      ensures content.texture == SolidColor && old(buttonVertexCount) + 6 <= BUFFER_VERTICES ==>
        buttonVertexCount == old(buttonVertexCount) + 6
        && QuadAt(buttonVertexBuffer[..], old(buttonVertexCount), ButtonQuad(content, solidRect), content.color)
        && buttonVertexBuffer[..old(buttonVertexCount)] == old(buttonVertexBuffer[..buttonVertexCount])
        && buttonVertexBuffer[buttonVertexCount..] == old(buttonVertexBuffer[..])[buttonVertexCount..]
    {
      if content.texture != SolidColor {
        return INVALID_BUTTON_ID;
      }
      var start := buttonVertexCount;
      if start + 6 <= BUFFER_VERTICES {
        ghost var before := buttonVertexBuffer[..];
        CreateQuad(buttonVertexBuffer, start, ButtonQuad(content, solidRect), content.color);
        assert forall j :: 0 <= j < start ==> buttonVertexBuffer[..start][j] == before[..start][j];
        ghost var end := start + 6;
        assert forall j :: 0 <= j < |before| - end ==> buttonVertexBuffer[end..][j] == before[end..][j];
      } else {
        overrun := true;
      }
      buttonVertexCount := Add32(start, 6);
      buttons := TryEmplace(buttons, id, Button(content, start, Sub32(buttonVertexCount, 1)));
      buttonId := id;
    }

    /**
     * The re-adding loop of `RemoveButtonKeepingIds`: adds each content in
     * turn through `AddButtonInPlace` under the matching id, so that from a
     * zero count button `i` is drawn at vertex `6 i`.
     */
    method AddButtonsInPlace(bs: seq<ButtonContent>, ids: seq<nat>)
      requires Valid() && buttonVertexCount == 0
      requires |ids| == |bs| && 6 * |bs| <= BUFFER_VERTICES
      requires forall i :: 0 <= i < |ids| ==> ids[i] < U32_LIMIT
      requires forall i :: 0 <= i < |bs| ==> bs[i].texture == SolidColor
      modifies this`buttonVertexCount, this`buttons, this`overrun, buttonVertexBuffer
      ensures Valid() && overrun == old(overrun)
      ensures buttonVertexCount == 6 * |bs|
      ensures buttons == EmplaceFirst(old(buttons), ids, PlacedButtons(bs), |bs|)
      ensures forall i :: 0 <= i < |bs| ==>
        QuadAt(buttonVertexBuffer[..], 6 * i, ButtonQuad(bs[i], solidRect), bs[i].color)
    {
      var i := 0;
      while i < |bs|
        invariant 0 <= i <= |bs| && Valid() && overrun == old(overrun)
        invariant buttonVertexCount == 6 * i
        invariant buttons == EmplaceFirst(old(buttons), ids, PlacedButtons(bs), i)
        invariant ButtonsDrawn(buttonVertexBuffer[..], bs, i, solidRect)
      {
        ghost var before := buttonVertexBuffer[..];
        var _ := AddButtonInPlace(bs[i], ids[i]);
        ButtonsDrawnStep(before, buttonVertexBuffer[..], bs, i, solidRect);
        i := i + 1;
      }
    }

    /**
     * The tail of `RemoveButtonKeepingIds`: from an empty map and a zero
     * count, re-adds the contents `bs` under `ids` through
     * `AddButtonInPlace`, so that button `i` ends up drawn at vertex `6 i`,
     * and resets the vertices between the new count and the old one; when
     * the old count lies past the end of the buffer that loop writes past
     * it.
     */
    method RebuildButtonsInPlace(bs: seq<ButtonContent>, ids: seq<nat>)
      requires Valid()
      requires |ids| == |bs| && 6 * |bs| <= BUFFER_VERTICES
      requires forall i :: 0 <= i < |ids| ==> ids[i] < U32_LIMIT
      requires forall i :: 0 <= i < |bs| ==> bs[i].texture == SolidColor
      modifies this`buttonVertexCount, this`buttons, this`overrun, buttonVertexBuffer
      ensures Valid()
      ensures buttonVertexCount == 6 * |bs|
      ensures buttons == EmplaceFirst(map[], ids, PlacedButtons(bs), |bs|)
      ensures overrun == (old(overrun) || (buttonVertexCount < old(buttonVertexCount) && BUFFER_VERTICES < old(buttonVertexCount)))
      ensures forall i :: 0 <= i < |bs| ==>
        QuadAt(buttonVertexBuffer[..], 6 * i, ButtonQuad(bs[i], solidRect), bs[i].color)
      ensures forall j :: buttonVertexCount <= j < old(buttonVertexCount) && j < BUFFER_VERTICES ==>
        buttonVertexBuffer[j] == DEFAULT_VERTEX
    {
      buttons := map[];
      var lastVertexCount := buttonVertexCount;
      buttonVertexCount := 0;
      AddButtonsInPlace(bs, ids);
      ghost var drawn := buttonVertexBuffer[..];
      var past := ClearTail(buttonVertexBuffer, buttonVertexCount, lastVertexCount);
      overrun := overrun || past;
      forall i | 0 <= i < |bs|
        ensures QuadAt(buttonVertexBuffer[..], 6 * i, ButtonQuad(bs[i], solidRect), bs[i].color)
      {
        QuadAtWithin(drawn, buttonVertexBuffer[..], 0, 6 * |bs|, 6 * i, ButtonQuad(bs[i], solidRect), bs[i].color);
      }
    }

    /**
     * Where the range-for of `RemoveButton` stands with the iterator at
     * `cur` after `n` calls: the visits still to come are the rest of `bs`,
     * the count is `6 n` as a `uint32_t`, the first `n` are filed over
     * `base` as laid out from vertex 0, and the last of them is the quad at
     * vertex 0.
     */
    ghost predicate ButtonWalk(base: map<nat, Button>, bs: seq<ButtonContent>, cur: Option<nat>, n: nat,
                               rand: nat -> u32)
      reads this, buttonVertexBuffer
    {
      Valid() && Rank(cur) <= U32_LIMIT
      && n <= |bs| && bs == bs[..n] + ButtonVisits(buttons, cur, buttonVertexCount, n, rand)
      && buttonVertexCount == (6 * n) % U32_LIMIT
      && buttons == EmplaceFirst(base, RandIds(rand, |bs|), PlacedButtons(bs), n)
      && (0 < n ==> QuadAt(buttonVertexBuffer[..], 0, ButtonQuad(bs[n - 1], solidRect), bs[n - 1].color))
    }

    /** One turn of the range-for of `RemoveButton`: re-adds the button at the next key and moves there. */
    method ReAddNextButton(ghost base: map<nat, Button>, ghost bs: seq<ButtonContent>, cur: Option<nat>, n: nat,
                           rand: nat -> u32) returns (next: Option<nat>)
      requires ButtonWalk(base, bs, cur, n, rand) && NextKey(buttons.Keys, cur).Some?
      modifies this`buttonVertexCount, this`buttons, buttonVertexBuffer
      ensures ButtonWalk(base, bs, next, n + 1, rand) && Rank(cur) < Rank(next) <= U32_LIMIT
    {
      var k := NextKey(buttons.Keys, cur).value;
      ButtonVisitsStep(bs, buttons, cur, buttonVertexCount, n, rand);
      var _ := AddButton(buttons[k].content, rand(n));
      next := Some(k);
    }

    /**
     * The range-for of `RemoveButton`, from a zero count: re-adds the
     * current button through `AddButton`, filed under the next random id
     * while the old entry stays, and moves on in the map as it now is
     * (`ButtonVisits`). Every quad goes to vertices 0 to 5, so the last
     * button visited is the one shown there.
     */
    method ReAddButtons(rand: nat -> u32) returns (ghost bs: seq<ButtonContent>)
      requires Valid() && buttonVertexCount == 0
      modifies this`buttonVertexCount, this`buttons, buttonVertexBuffer
      ensures Valid() && bs == ButtonVisits(old(buttons), None, 0, 0, rand)
      ensures buttonVertexCount == (6 * |bs|) % U32_LIMIT
      ensures buttons == EmplaceFirst(old(buttons), RandIds(rand, |bs|), PlacedButtons(bs), |bs|)
      ensures 0 < |bs| ==> QuadAt(buttonVertexBuffer[..], 0, ButtonQuad(bs[|bs| - 1], solidRect), bs[|bs| - 1].color)
    {
      bs := ButtonVisits(buttons, None, 0, 0, rand);
      ButtonWalkStart(rand);
      var cur: Option<nat> := None;
      var n := 0;
      while NextKey(buttons.Keys, cur).Some?
        invariant ButtonWalk(old(buttons), bs, cur, n, rand)
        decreases U32_LIMIT - Rank(cur)
      {
        cur := ReAddNextButton(old(buttons), bs, cur, n, rand);
        n := n + 1;
      }
      ButtonWalkEnd(old(buttons), bs, cur, n, rand);
    }

    /** The range-for of `RemoveButton` starts at `begin()` with nothing re-added. */
    lemma ButtonWalkStart(rand: nat -> u32)
      requires Valid() && buttonVertexCount == 0
      ensures ButtonWalk(buttons, ButtonVisits(buttons, None, 0, 0, rand), None, 0, rand)
    {
    }

    /** When `++it` reaches the end, every visit has been made. */
    lemma ButtonWalkEnd(base: map<nat, Button>, bs: seq<ButtonContent>, cur: Option<nat>, n: nat, rand: nat -> u32)
      requires ButtonWalk(base, bs, cur, n, rand) && NextKey(buttons.Keys, cur).None?
      ensures Valid() && n == |bs|
      ensures buttonVertexCount == (6 * |bs|) % U32_LIMIT
      ensures buttons == EmplaceFirst(base, RandIds(rand, |bs|), PlacedButtons(bs), |bs|)
      ensures 0 < |bs| ==> QuadAt(buttonVertexBuffer[..], 0, ButtonQuad(bs[|bs| - 1], solidRect), bs[|bs| - 1].color)
    {
      assert ButtonVisits(buttons, cur, buttonVertexCount, n, rand) == [];
    }

    /**
     * `RemoveButton` as written: erases the id, resets the count, re-adds
     * the buttons as `ReAddButtons` walks the map, and resets the vertices
     * between the new and the old count, which writes past the end of the
     * buffer when the old count lies past it.
     */
    method RemoveButton(buttonId: nat, rand: nat -> u32)
      requires Valid()
      modifies this`buttonVertexCount, this`buttons, this`overrun, buttonVertexBuffer
      ensures Valid()
      ensures var bs := ButtonVisits(old(buttons) - {buttonId}, None, 0, 0, rand);
        buttonVertexCount == (6 * |bs|) % U32_LIMIT
        && buttons == EmplaceFirst(old(buttons) - {buttonId}, RandIds(rand, |bs|), PlacedButtons(bs), |bs|)
        && (0 < |bs| && 6 <= buttonVertexCount ==>
              QuadAt(buttonVertexBuffer[..], 0, ButtonQuad(bs[|bs| - 1], solidRect), bs[|bs| - 1].color))
      ensures overrun ==
        (old(overrun) || (buttonVertexCount < old(buttonVertexCount) && BUFFER_VERTICES < old(buttonVertexCount)))
      ensures forall j :: buttonVertexCount <= j < old(buttonVertexCount) && j < BUFFER_VERTICES ==>
        buttonVertexBuffer[j] == DEFAULT_VERTEX
    {
      buttons := buttons - {buttonId};
      var lastVertexCount := buttonVertexCount;
      buttonVertexCount := 0;
      ghost var bs := ReAddButtons(rand);
      assert bs == ButtonVisits(old(buttons) - {buttonId}, None, 0, 0, rand);
      ClearButtonTail(lastVertexCount, if 0 < |bs| then Some(bs[|bs| - 1]) else None);
    }

    /**
     * The clearing loop after the range-for of `RemoveButton`: resets the
     * vertices from the new count up to `lastVertexCount` and keeps the quad
     * of `last` at vertex 0.
     */
    method ClearButtonTail(lastVertexCount: u32, ghost last: Option<ButtonContent>)
      requires Valid()
      requires last.Some? && 6 <= buttonVertexCount ==>
        QuadAt(buttonVertexBuffer[..], 0, ButtonQuad(last.value, solidRect), last.value.color)
      modifies this`overrun, buttonVertexBuffer
      ensures Valid()
      ensures overrun == (old(overrun) || (buttonVertexCount < lastVertexCount && BUFFER_VERTICES < lastVertexCount))
      ensures forall j :: buttonVertexCount <= j < lastVertexCount && j < BUFFER_VERTICES ==>
        buttonVertexBuffer[j] == DEFAULT_VERTEX
      ensures last.Some? && 6 <= buttonVertexCount ==>
        QuadAt(buttonVertexBuffer[..], 0, ButtonQuad(last.value, solidRect), last.value.color)
    {
      ghost var drawn := buttonVertexBuffer[..];
      var past := ClearTail(buttonVertexBuffer, buttonVertexCount, lastVertexCount);
      overrun := overrun || past;
      if last.Some? && 6 <= buttonVertexCount {
        assert forall j :: 0 <= j < 6 ==> buttonVertexBuffer[..][j] == drawn[j];
        QuadAtFrame(drawn, buttonVertexBuffer[..], 0, ButtonQuad(last.value, solidRect), last.value.color);
      }
    }

    /**
     * The intended removal: the remaining buttons keep their ids and
     * contents, are laid out again from vertex 0 in key order, and every
     * stored button is drawn at its recorded first vertex.
     */
    method RemoveButtonKeepingIds(buttonId: nat)
      requires Valid()
      requires 6 * |RemainingButtons(buttons, buttonId)| <= BUFFER_VERTICES
      modifies this`buttonVertexCount, this`buttons, this`overrun, buttonVertexBuffer
      ensures Valid()
      ensures buttons.Keys == old(buttons).Keys - {buttonId}
      ensures forall k :: k in buttons ==> buttons[k].content == old(buttons)[k].content
      ensures forall k :: k in buttons ==>
        QuadAt(buttonVertexBuffer[..], buttons[k].startVertex, ButtonQuad(buttons[k].content, solidRect),
               buttons[k].content.color)
      ensures buttonVertexCount == 6 * |RemainingButtons(old(buttons), buttonId)|
      ensures overrun ==
        (old(overrun) || (buttonVertexCount < old(buttonVertexCount) && BUFFER_VERTICES < old(buttonVertexCount)))
      ensures forall j :: buttonVertexCount <= j < old(buttonVertexCount) && j < BUFFER_VERTICES ==>
        buttonVertexBuffer[j] == DEFAULT_VERTEX
    {
      var keys := SortedKeys(buttons.Keys - {buttonId});
      var bs := RemainingButtons(buttons, buttonId);
      RemainingButtonsSolid(buttons, buttonId);
      RebuildButtonsInPlace(bs, keys);
      RebuiltButtonsDrawn(old(buttons), buttonId, buttonVertexBuffer[..], solidRect);
    }
  }

  /** `std::rand()` yielding 5, then 3 from then on. */
  function FiveThenThree(j: nat): u32
  {
    if j == 0 then 5 else 3
  }

  /** A white two-character label. */
  const OK_LABEL := LabelContent("ok", SolidColor, Color(255, 255, 255, 255), 0)

  /** Past key 5 of the map holding keys 1, 3 and 5, the walk ends. */
  lemma RevisitsLast()
    ensures Visits(map[1 := Label(OK_LABEL, 0, 11), 5 := Label(OK_LABEL, 0, 11), 3 := Label(OK_LABEL, 12, 23)],
                   Some(5), 24, 2, FiveThenThree) == []
  {
    NextKeyNone({1, 5, 3}, Some(5));
  }

  /** Past key 1, the walk reaches the copy under 5 and files another copy under 3. */
  lemma RevisitsCopy()
    ensures Visits(map[1 := Label(OK_LABEL, 0, 11), 5 := Label(OK_LABEL, 0, 11)], Some(1), 12, 1, FiveThenThree)
      == [OK_LABEL]
  {
    var m := map[1 := Label(OK_LABEL, 0, 11), 5 := Label(OK_LABEL, 0, 11)];
    assert m.Keys == {1, 5};
    NextKeyIs(m.Keys, Some(1), 5);
    assert TryEmplace(m, 3, Label(OK_LABEL, 12, 23))
      == map[1 := Label(OK_LABEL, 0, 11), 5 := Label(OK_LABEL, 0, 11), 3 := Label(OK_LABEL, 12, 23)];
    RevisitsLast();
  }

  /** From `begin()`, the walk re-adds the label under 1, filing the copy under 5, then goes on. */
  lemma RevisitsFirst()
    ensures Visits(map[1 := Label(OK_LABEL, 0, 11)], None, 0, 0, FiveThenThree) == [OK_LABEL, OK_LABEL]
  {
    var m := map[1 := Label(OK_LABEL, 0, 11)];
    assert m.Keys == {1};
    NextKeyIs(m.Keys, None, 1);
    assert TryEmplace(m, 5, Label(OK_LABEL, 0, 11)) == map[1 := Label(OK_LABEL, 0, 11), 5 := Label(OK_LABEL, 0, 11)];
    RevisitsCopy();
  }

  /**
   * Removing an absent id from a pipeline holding one label under id 1,
   * while `std::rand()` yields 5 and then 3: the copy filed under 5 lies
   * past the iterator, so the walk reaches it and re-adds the label a
   * second time (filed under 3). The one label is drawn twice, the count
   * doubles, and the map ends with three entries for it.
   */
  lemma RemoveLabelRevisits()
    ensures var before := map[1 := Label(OK_LABEL, 0, 11)];
      var cs := Visits(before - {2}, None, 0, 0, FiveThenThree);
      var after := EmplaceFirst(before - {2}, RandIds(FiveThenThree, |cs|), Placed(cs), |cs|);
      cs == [OK_LABEL, OK_LABEL] && cs != Remaining(before, 2)
      && Offset(cs, |cs|) == 24 && after.Keys == {1, 3, 5}
  {
    var before := map[1 := Label(OK_LABEL, 0, 11)];
    assert before - {2} == before;
    RevisitsFirst();
    var cs := [OK_LABEL, OK_LABEL];
    assert Offset(cs, 1) == 12;
    var ids := RandIds(FiveThenThree, 2);
    assert ids[0] == 5 && ids[1] == 3;
    assert EmplaceFirst(before, ids, Placed(cs), 1).Keys == {1, 5};
    assert SortedKeys({1}) == [1];
    assert Remaining(before, 2) == [OK_LABEL];
  }

  /**
   * Two solid buttons added to a fresh pipeline: the second owns vertices
   * 6 to 11, which are counted but still hold the default vertex, because
   * both quads went to vertices 0 to 5.
   */
  method SecondButtonLeftBlank(layout: (LabelContent, nat, Extent2D) -> Quad, solid: Vec2)
    returns (secondStart: u32, vertexCount: u32, slotSix: UIVertex)
    ensures secondStart == 6 && vertexCount == 12 && slotSix == DEFAULT_VERTEX
  {
    var ui := new UIPipeline(layout, solid);
    var a := ButtonContent(Vec2(0.0, 0.0), Vec2(1.0, 1.0), SolidColor, Color(255, 0, 0, 255));
    var b := ButtonContent(Vec2(2.0, 2.0), Vec2(1.0, 1.0), SolidColor, Color(0, 255, 0, 255));
    ghost var initial := ui.buttonVertexBuffer[..];
    var _ := ui.AddButton(a, 1);
    var _ := ui.AddButton(b, 2);
    assert ui.buttonVertexBuffer[6..][0] == initial[6..][0];
    secondStart := ui.buttons[2].startVertex;
    vertexCount := ui.buttonVertexCount;
    slotSix := ui.buttonVertexBuffer[6];
  }
}
