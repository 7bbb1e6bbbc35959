/** Searching tasks in memory: filter, stable sort by the chosen key in either direction, one page. */
module Search {
  import opened Basics
  import opened Text
  import Strings
  import opened Sorting

  /** The fields of a task that searching looks at. */
  datatype Item = Item(id: string, missionId: string, code: string, status: string, expiresAt: Time)

  datatype Filter = Filter(missionId: string, status: string, search: string)

  datatype SortField = Unset | CreatedAt | ExpiresAt | TaskCode | Unknown(text: string)

  datatype SearchRequest = SearchRequest(filter: Filter, sort: SortField, desc: bool, offset: int, limit: int)

  /** `lower` is strings.ToLower. */
  function NormalizeFilter(lower: string -> string, f: Filter): Filter {
    Filter(TrimSpace(f.missionId), f.status, TrimSpace(lower(f.search)))
  }

  function EffectiveLimit(limit: int): nat {
    if limit < 1 || limit > 100 then 50 else limit
  }

  function Normalize(lower: string -> string, r: SearchRequest): SearchRequest {
    SearchRequest(NormalizeFilter(lower, r.filter), if r.sort.Unset? then CreatedAt else r.sort, r.desc,
                  if r.offset < 0 then 0 else r.offset, EffectiveLimit(r.limit))
  }

  /** strings.Contains: some suffix starts with the part. */
  predicate Contains(s: string, part: string) {
    part <= s || (s != "" && Contains(s[1..], part))
  }

  predicate Matches(lower: string -> string, f: Filter, item: Item) {
    var g := NormalizeFilter(lower, f);
    && (g.missionId != "" ==> item.missionId == g.missionId)
    && (g.status != "" ==> item.status == g.status)
    && (g.search != "" ==> Contains(lower(item.code), g.search))
  }

  function Matching(lower: string -> string, f: Filter, items: seq<Item>): seq<Item> {
    if items == [] then []
    else
      var last := items[|items| - 1];
      Matching(lower, f, items[..|items| - 1]) + (if Matches(lower, f, last) then [last] else [])
  }

  /** Whether the comparison function puts a before b. */
  predicate Before(lower: string -> string, sort: SortField, desc: bool, a: Item, b: Item) {
    var left, right := if desc then b else a, if desc then a else b;
    match sort
    case ExpiresAt => left.expiresAt < right.expiresAt
    case TaskCode => Strings.Less(lower(left.code), lower(right.code))
    case _ => Strings.Less(left.id, right.id)
  }

  function Order(lower: string -> string, sort: SortField, desc: bool): (Item, Item) -> bool {
    (a, b) => !Before(lower, sort, desc, b, a)
  }

  lemma BeforeIsOrder(lower: string -> string, sort: SortField, desc: bool, a: Item, b: Item, c: Item)
    ensures !Before(lower, sort, desc, b, a) || !Before(lower, sort, desc, a, b)
    ensures !Before(lower, sort, desc, b, a) && !Before(lower, sort, desc, c, b) ==> !Before(lower, sort, desc, c, a)
  {
    NotLess(lower(a.code), lower(b.code), lower(c.code));
    NotLess(lower(c.code), lower(b.code), lower(a.code));
    NotLess(a.id, b.id, c.id);
    NotLess(c.id, b.id, a.id);
  }

  lemma NotLess(x: string, y: string, z: string)
    ensures !(Strings.Less(x, y) && Strings.Less(y, x))
    ensures !Strings.Less(y, x) && !Strings.Less(z, y) ==> !Strings.Less(z, x)
  {
    Strings.Irreflexive(x);
    Strings.Irreflexive(y);
    if Strings.Less(x, y) && Strings.Less(y, x) { Strings.Transitive(x, y, x); }
    Strings.Total(x, y);
    Strings.Total(y, z);
    if Strings.Less(x, y) && Strings.Less(z, x) { Strings.Transitive(z, x, y); }
    if Strings.Less(x, y) && Strings.Less(y, z) {
      Strings.Transitive(x, y, z);
      if Strings.Less(z, x) { Strings.Transitive(x, z, x); }
    }
  }

  /** Every key, in either direction, orders all tasks. */
  lemma OrderIsPreorder(lower: string -> string, sort: SortField, desc: bool)
    ensures TotalPreorder(Order(lower, sort, desc))
  {
    var leq := Order(lower, sort, desc);
    forall a, b ensures leq(a, b) || leq(b, a) { BeforeIsOrder(lower, sort, desc, a, b, a); }
    forall a, b, c | leq(a, b) && leq(b, c) ensures leq(a, c) { BeforeIsOrder(lower, sort, desc, a, b, c); }
  }

  function Clamp(k: nat, n: nat): nat {
    if k < n then k else n
  }

  /** The slice a page shows. */
  function PageAt(all: seq<Item>, offset: nat, limit: nat): seq<Item> {
    all[Clamp(offset, |all|)..Clamp(offset + limit, |all|)]
  }

  /** The complete ordered result a request pages through. */
  ghost predicate IsResult(lower: string -> string, items: seq<Item>, request: SearchRequest, all: seq<Item>) {
    var r := Normalize(lower, request);
    IsStableSort(Order(lower, r.sort, r.desc), Matching(lower, r.filter, items), all)
  }

  /** The requested page of the one stable sort of the matching tasks. */
  method SearchDroneTasks(lower: string -> string, items: seq<Item>, request: SearchRequest) returns (page: seq<Item>)
    ensures exists all :: IsResult(lower, items, request, all)
              && multiset(all) == multiset(Matching(lower, Normalize(lower, request).filter, items))
    ensures forall all :: IsResult(lower, items, request, all) ==>
              page == PageAt(all, if request.offset < 0 then 0 else request.offset,
                             if 1 <= request.limit <= 100 then request.limit else 50)
  {
    var r := Normalize(lower, request);
    var filtered: seq<Item> := [];
    for k := 0 to |items|
      invariant filtered == Matching(lower, r.filter, items[..k])
    {
      assert items[..k + 1][..k] == items[..k];
      if Matches(lower, r.filter, items[k]) {
        filtered := filtered + [items[k]];
      }
    }
    assert items[..|items|] == items;
    OrderIsPreorder(lower, r.sort, r.desc);
    var sorted := StableSort(Order(lower, r.sort, r.desc), filtered);
    var start := r.offset;
    if start > |sorted| {
      start := |sorted|;
    }
    var end := start + r.limit;
    if end > |sorted| {
      end := |sorted|;
    }
    page := sorted[start..end];
    assert IsResult(lower, items, request, sorted);
    forall all | IsResult(lower, items, request, all) ensures all == sorted {
      OneResult(lower, items, request, request.offset, request.limit, all, sorted);
    }
  }

  // ---------- the result, in terms of the tasks alone ----------

  ghost predicate OccursAt(part: string, s: string, i: nat) {
    i + |part| <= |s| && s[i..i + |part|] == part
  }

  /** The part occurs somewhere in the string. */
  ghost predicate Occurs(part: string, s: string) {
    exists i: nat :: OccursAt(part, s, i)
  }

  lemma {:induction false} ContainsExactly(s: string, part: string)
    ensures Contains(s, part) <==> Occurs(part, s)
  {
    assert part <= s <==> OccursAt(part, s, 0);
    if s != "" {
      ContainsExactly(s[1..], part);
      if i: nat :| OccursAt(part, s[1..], i) {
        assert OccursAt(part, s, i + 1);
      }
      if i: nat :| OccursAt(part, s, i) && i > 0 {
        assert OccursAt(part, s[1..], i - 1);
      }
    }
  }

  /** An empty criterion asks for nothing; the search text is lowered and trimmed twice on its way here. */
  ghost predicate Wanted(lower: string -> string, f: Filter, item: Item) {
    var part := TrimSpace(lower(TrimSpace(lower(f.search))));
    && (TrimSpace(f.missionId) == "" || item.missionId == TrimSpace(f.missionId))
    && (f.status == "" || item.status == f.status)
    && (part == "" || Occurs(part, lower(item.code)))
  }

  lemma MatchesExactly(lower: string -> string, f: Filter, item: Item)
    ensures Matches(lower, NormalizeFilter(lower, f), item) <==> Wanted(lower, f, item)
  {
    ContainsExactly(lower(item.code), TrimSpace(lower(TrimSpace(lower(f.search)))));
    TrimTwice(f.missionId);
  }

  /** The candidates keep their order. */
  lemma {:induction false} MatchingConcat(lower: string -> string, f: Filter, a: seq<Item>, b: seq<Item>)
    ensures Matching(lower, f, a + b) == Matching(lower, f, a) + Matching(lower, f, b)
    decreases |b|
  {
    if b == [] {
      assert a + b == a;
    } else {
      var shorter := b[..|b| - 1];
      assert (a + b)[..|a + b| - 1] == a + shorter;
      MatchingConcat(lower, f, a, shorter);
    }
  }

  lemma {:induction false} MatchingCounts(lower: string -> string, f: Filter, items: seq<Item>, item: Item)
    ensures multiset(Matching(lower, f, items))[item] == if Matches(lower, f, item) then multiset(items)[item] else 0
    decreases |items|
  {
    if items != [] {
      MatchingCounts(lower, f, items[..|items| - 1], item);
      assert items == items[..|items| - 1] + [items[|items| - 1]];
    }
  }

  /** The order of the chosen key: expiry, lowered code, or the identifier for everything else. */
  ghost predicate KeyBefore(lower: string -> string, sort: SortField, a: Item, b: Item) {
    if sort == ExpiresAt then a.expiresAt < b.expiresAt
    else if sort == TaskCode then Strings.Precedes(lower(a.code), lower(b.code))
    else Strings.Precedes(a.id, b.id)
  }

  /**
   The result lists every wanted task as often as it was given and no other; keys never decrease, or never
   increase when descending.
   */
  lemma ResultExact(lower: string -> string, items: seq<Item>, request: SearchRequest, all: seq<Item>)
    requires IsResult(lower, items, request, all)
    ensures forall item ::
              multiset(all)[item] == if Wanted(lower, request.filter, item) then multiset(items)[item] else 0
    ensures forall i, j :: 0 <= i < j < |all| ==>
              if request.desc then !KeyBefore(lower, request.sort, all[i], all[j])
              else !KeyBefore(lower, request.sort, all[j], all[i])
  {
    var r := Normalize(lower, request);
    OrderIsPreorder(lower, r.sort, r.desc);
    SameItems(Order(lower, r.sort, r.desc), Matching(lower, r.filter, items), all);
    forall item
      ensures multiset(all)[item] == if Wanted(lower, request.filter, item) then multiset(items)[item] else 0
    {
      MatchingCounts(lower, r.filter, items, item);
      MatchesExactly(lower, request.filter, item);
    }
    forall i, j | 0 <= i < j < |all|
      ensures if request.desc then !KeyBefore(lower, request.sort, all[i], all[j])
              else !KeyBefore(lower, request.sort, all[j], all[i])
    {
      var a, b := if request.desc then all[i] else all[j], if request.desc then all[j] else all[i];
      Strings.LessExactly(lower(a.code), lower(b.code));
      Strings.LessExactly(a.id, b.id);
      assert Order(lower, r.sort, r.desc)(all[i], all[j]);
    }
  }

  /** Requests that differ in offset and limit only page through one and the same result. */
  lemma OneResult(
    lower: string -> string, items: seq<Item>, r: SearchRequest, offset: int, limit: int, a: seq<Item>, b: seq<Item>)
    requires IsResult(lower, items, r, a) && IsResult(lower, items, r.(offset := offset, limit := limit), b)
    ensures a == b
  {
    var n := Normalize(lower, r);
    OrderIsPreorder(lower, n.sort, n.desc);
    StableSortUnique(Order(lower, n.sort, n.desc), a, b);
  }

  // ---------- pages ----------

  /** The first m pages at offsets 0, step, 2 step, ... one after the other. */
  function Pages(all: seq<Item>, step: nat, limit: nat, m: nat): seq<Item> {
    if m == 0 then [] else Pages(all, step, limit, m - 1) + PageAt(all, (m - 1) * step, limit)
  }

  /** Pages one limit apart tile the result: m of them show exactly its first m * limit items. */
  lemma {:induction false} PagesTile(all: seq<Item>, limit: nat, m: nat)
    ensures Pages(all, limit, limit, m) == all[..Clamp(m * limit, |all|)]
  {
    if m > 0 {
      PagesTile(all, limit, m - 1);
      assert m * limit == (m - 1) * limit + limit;
    }
  }

  /** Enough pages, one effective limit apart, show every matching task exactly once, in order. */
  lemma AllPagesShowAll(lower: string -> string, items: seq<Item>, request: SearchRequest, all: seq<Item>, m: nat)
    requires IsResult(lower, items, request, all) && |all| <= m * EffectiveLimit(request.limit)
    ensures Pages(all, EffectiveLimit(request.limit), EffectiveLimit(request.limit), m) == all
  {
    PagesTile(all, EffectiveLimit(request.limit), m);
    assert all[..|all|] == all;
  }

  /** Items that pages `step` apart leave out once the first one was cut short. */
  lemma {:induction false} GapRemains(all: seq<Item>, step: nat, limit: nat, m: nat)
    requires limit < step && limit < |all|
    ensures |Pages(all, step, limit, m)| + (if m > 0 then 1 else 0) <= Clamp(m * step, |all|)
  {
    if m > 0 {
      GapRemains(all, step, limit, m - 1);
      assert m * step == (m - 1) * step + step;
    }
  }

  /**
   A caller who steps by the limit as asked for, rather than the effective one, still sees everything exactly
   when that limit is at most 100 or the first page, of 50, already holds the whole result.
   */
  lemma RawStepTiles(all: seq<Item>, limit: int, m: nat)
    requires limit >= 1 && |all| <= m * limit
    ensures Pages(all, limit, EffectiveLimit(limit), m) == all <==> limit <= 100 || |all| <= 50
  {
    if limit <= 100 {
      PagesTile(all, limit, m);
      assert all[..|all|] == all;
    } else if |all| <= 50 {
      FirstPageIsAll(all, limit, m);
    } else {
      GapRemains(all, limit, 50, m);
    }
  }

  /** With a limit of 101 and 51 matching tasks, the one page at offset 0 leaves a task out. */
  lemma RawStepMisses(all: seq<Item>)
    requires |all| == 51
    ensures Pages(all, 101, EffectiveLimit(101), 1) != all
  {
    RawStepTiles(all, 101, 1);
  }

  lemma {:induction false} FirstPageIsAll(all: seq<Item>, step: nat, m: nat)
    requires |all| <= 50 < step
    ensures Pages(all, step, 50, m) == if m == 0 then [] else all
  {
    if m > 1 {
      FirstPageIsAll(all, step, m - 1);
      assert step <= (m - 1) * step;
      assert PageAt(all, (m - 1) * step, 50) == [];
    } else if m == 1 {
      assert PageAt(all, 0 * step, 50) == all;
      assert Pages(all, step, 50, 0) == [];
    }
  }
}
