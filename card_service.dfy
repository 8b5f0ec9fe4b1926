/**
 * The local computations of the card and world service
 * (src/lib/supabase/service.ts): the slug a new card is stored under, the
 * query plan (filters, sort, page window) of a card listing, the paging
 * summary returned with it, and the "no such world" mapping of `getWorld`.
 * The queries themselves run on the hosted database and are not modelled.
 */
module CardService {
  import opened Text
  import opened Seqs
  import opened Entities
  import opened ErrorHandling

  // ---------------------------------------------------------------------
  // Slug of a new card (`createCard`)

  predicate IsSlugChar(c: char)
  {
    'a' <= c <= 'z' || '0' <= c <= '9'
  }

  /** No two adjacent dashes. */
  predicate NoDoubleDash(s: string)
  {
    forall i, j | 0 <= i < |s| && 0 <= j < |s| && j == i + 1 :: !(s[i] == '-' && s[j] == '-')
  }

  /** What a slug looks like: [a-z0-9-] only, no "--", no dash at either end. */
  predicate IsCleanSlug(s: string)
  {
    && (forall i | 0 <= i < |s| :: IsSlugChar(s[i]) || s[i] == '-')
    && NoDoubleDash(s)
    && (s == [] || (s[0] != '-' && s[|s| - 1] != '-'))
  }

  predicate NoSlugChar(s: string)
  {
    forall i | 0 <= i < |s| :: !IsSlugChar(s[i])
  }

  /** Drops the rest of a run of characters outside [a-z0-9]. */
  function DropRun(s: string): (r: string)
    ensures |r| <= |s| && r == s[|s| - |r|..]
    ensures r == [] || IsSlugChar(r[0])
    ensures NoSlugChar(s[..|s| - |r|])
  {
    if s != [] && !IsSlugChar(s[0]) then
      var t := DropRun(s[1..]);
      assert forall i | 1 <= i < |s| - |t| :: s[i] == s[1..][..|s| - 1 - |t|][i - 1];
      t
    else s
  }

  /** `.replace(/[^a-z0-9]+/g, '-')`: every maximal run outside [a-z0-9] becomes one dash. */
  function CollapseRuns(s: string): (r: string)
    ensures forall i | 0 <= i < |r| :: IsSlugChar(r[i]) || r[i] == '-'
    ensures NoDoubleDash(r)
    ensures r == [] <==> s == []
    ensures s != [] ==> (r[0] == '-' <==> !IsSlugChar(s[0]))
    decreases |s|
  {
    if s == [] then []
    else if IsSlugChar(s[0]) then
      var t := CollapseRuns(s[1..]);
      PrependShape(s[0], t);
      [s[0]] + t
    else
      var t := CollapseRuns(DropRun(s[1..]));
      PrependShape('-', t);
      ['-'] + t
  }

  /** Putting an allowed character before a collapsed string keeps its shape. */
  lemma PrependShape(c: char, t: string)
    requires IsSlugChar(c) || c == '-'
    requires forall i | 0 <= i < |t| :: IsSlugChar(t[i]) || t[i] == '-'
    requires NoDoubleDash(t)
    requires c == '-' ==> t == [] || t[0] != '-'
    ensures forall i | 0 <= i < |[c] + t| :: IsSlugChar(([c] + t)[i]) || ([c] + t)[i] == '-'
    ensures NoDoubleDash([c] + t)
  {
  }

  /** `.replace(/(^-|-$)/g, '')`: one leading and one trailing dash are removed. */
  function StripEdgeDashes(s: string): (r: string)
    ensures |r| <= |s|
  {
    var a := if s != [] && s[0] == '-' then s[1..] else s;
    if a != [] && a[|a| - 1] == '-' then a[..|a| - 1] else a
  }

  /** The slug stored with a new card. */
  function Slug(name: string): (r: string)
    ensures IsCleanSlug(r)
  {
    var c := CollapseRuns(Lower(name));
    var r := StripEdgeDashes(c);
    SlugShape(c, r);
    r
  }

  lemma SlugShape(c: string, r: string)
    requires forall i | 0 <= i < |c| :: IsSlugChar(c[i]) || c[i] == '-'
    requires NoDoubleDash(c)
    requires r == StripEdgeDashes(c)
    ensures IsCleanSlug(r)
  {
    var a := if c != [] && c[0] == '-' then c[1..] else c;
    assert a == [] || a[0] != '-' by {
      if c != [] && c[0] == '-' && |c| > 1 {
        assert !(c[0] == '-' && c[1] == '-');
      }
    }
    if a != [] && a[|a| - 1] == '-' {
      assert r == a[..|a| - 1];
      if r != [] {
        assert r[|r| - 1] == a[|a| - 2];
      }
    }
  }

  /** A string with no dash run leading and every character allowed collapses to itself. */
  lemma {:induction false} CollapseKeepsClean(s: string)
    requires forall i | 0 <= i < |s| :: IsSlugChar(s[i]) || s[i] == '-'
    requires NoDoubleDash(s)
    ensures CollapseRuns(s) == s
    decreases |s|
  {
    if s == [] {
    } else if IsSlugChar(s[0]) {
      CollapseKeepsClean(s[1..]);
    } else {
      assert s[0] == '-';
      if |s| > 1 {
        assert !(s[0] == '-' && s[1] == '-');
      }
      assert DropRun(s[1..]) == s[1..];
      CollapseKeepsClean(s[1..]);
    }
  }

  /** A slug is its own slug. */
  lemma SlugOfCleanSlug(s: string)
    requires IsCleanSlug(s)
    ensures Slug(s) == s
  {
    assert Lower(s) == s by {
      forall i | 0 <= i < |s| ensures Lower(s)[i] == s[i] {
        assert !IsAsciiUpper(s[i]);
      }
    }
    CollapseKeepsClean(s);
    assert StripEdgeDashes(s) == s;
  }

  /** Slug generation is idempotent. */
  lemma SlugIdempotent(name: string)
    ensures Slug(Slug(name)) == Slug(name)
  {
    SlugOfCleanSlug(Slug(name));
  }

  /** A name without any letter or digit has the empty slug. */
  lemma SymbolOnlySlug(name: string)
    requires forall i | 0 <= i < |name| :: !IsSlugChar(LowerChar(name[i]))
    ensures Slug(name) == []
  {
    var l := Lower(name);
    if l != [] {
      assert DropRun(l[1..]) == [];
      assert CollapseRuns(l) == "-";
    }
  }

  /** Dropping the rest of a run loses no letter or digit. */
  lemma {:induction false} DropRunKeepsSlugChars(s: string)
    ensures Filter(DropRun(s), IsSlugChar) == Filter(s, IsSlugChar)
    decreases |s|
  {
    if s != [] && !IsSlugChar(s[0]) {
      DropRunKeepsSlugChars(s[1..]);
    }
  }

  /** Collapsing keeps every letter and digit, in order, and adds only dashes. */
  lemma {:induction false} CollapseKeepsSlugChars(s: string)
    ensures Filter(CollapseRuns(s), IsSlugChar) == Filter(s, IsSlugChar)
    decreases |s|
  {
    if s != [] {
      var r := CollapseRuns(s);
      if IsSlugChar(s[0]) {
        CollapseKeepsSlugChars(s[1..]);
        assert r[1..] == CollapseRuns(s[1..]);
      } else {
        var d := DropRun(s[1..]);
        CollapseKeepsSlugChars(d);
        DropRunKeepsSlugChars(s[1..]);
        assert r[1..] == CollapseRuns(d);
      }
    }
  }

  /** Removing an edge dash loses no letter or digit. */
  lemma StripEdgeKeepsSlugChars(s: string)
    ensures Filter(StripEdgeDashes(s), IsSlugChar) == Filter(s, IsSlugChar)
  {
    var a := if s != [] && s[0] == '-' then s[1..] else s;
    if s != [] && s[0] == '-' {
      assert s == [s[0]] + a;
      FilterConcat([s[0]], a, IsSlugChar);
    }
    if a != [] && a[|a| - 1] == '-' {
      assert a == a[..|a| - 1] + [a[|a| - 1]];
      FilterConcat(a[..|a| - 1], [a[|a| - 1]], IsSlugChar);
    }
  }

  /** The letters and digits of the slug are exactly those of the lowered name, in order: the slug only adds dashes. */
  lemma SlugKeepsLettersAndDigits(name: string)
    ensures Filter(Slug(name), IsSlugChar) == Filter(Lower(name), IsSlugChar)
  {
    var c := CollapseRuns(Lower(name));
    CollapseKeepsSlugChars(Lower(name));
    StripEdgeKeepsSlugChars(c);
  }

  /** A run of characters outside [a-z0-9] followed by a letter or digit (or by the end) is dropped whole. */
  lemma {:induction false} DropRunBeforeSlugChar(w: string, y: string)
    requires NoSlugChar(w) && (y == [] || IsSlugChar(y[0]))
    ensures DropRun(w + y) == y
    decreases |w|
  {
    if w != [] {
      assert (w + y)[1..] == w[1..] + y;
      DropRunBeforeSlugChar(w[1..], y);
    }
  }

  /** Dropping a run stops inside `a` when `a` ends in a letter or digit, whatever follows. */
  lemma {:induction false} DropRunConcat(a: string, z: string)
    requires a != [] && IsSlugChar(a[|a| - 1])
    ensures DropRun(a + z) == DropRun(a) + z
    decreases |a|
  {
    if !IsSlugChar(a[0]) {
      assert (a + z)[1..] == a[1..] + z;
      DropRunConcat(a[1..], z);
    }
  }

  /** A string ending in a letter or digit keeps that last character. */
  lemma {:induction false} DropRunKeepsLast(a: string)
    requires a != [] && IsSlugChar(a[|a| - 1])
    ensures DropRun(a) != [] && DropRun(a)[|DropRun(a)| - 1] == a[|a| - 1]
    decreases |a|
  {
    if !IsSlugChar(a[0]) {
      DropRunKeepsLast(a[1..]);
    }
  }

  /** A leading letter or digit is copied. */
  lemma LeadingSlugChar(c: char, z: string)
    requires IsSlugChar(c)
    ensures CollapseRuns([c] + z) == [c] + CollapseRuns(z)
  {
    assert ([c] + z)[1..] == z;
  }

  /** Any other leading character becomes '-' and the rest of its run is dropped. */
  lemma LeadingOther(c: char, z: string)
    requires !IsSlugChar(c)
    ensures CollapseRuns([c] + z) == ['-'] + CollapseRuns(DropRun(z))
  {
    assert ([c] + z)[1..] == z;
  }

  lemma SlugCharHeadStep(c: char, t: string, w: string, y: string)
    requires IsSlugChar(c)
    requires CollapseRuns(t + w + y) == CollapseRuns(t) + ['-'] + CollapseRuns(y)
    ensures CollapseRuns([c] + t + w + y) == CollapseRuns([c] + t) + ['-'] + CollapseRuns(y)
  {
    LeadingSlugChar(c, t + w + y);
    LeadingSlugChar(c, t);
    Regroup([c], t, w, y);
    Regroup([c], CollapseRuns(t), ['-'], CollapseRuns(y));
  }

  lemma OtherHeadStep(c: char, a: string, w: string, y: string)
    requires !IsSlugChar(c) && a != [] && IsSlugChar(a[|a| - 1])
    requires var d := DropRun(a);
      CollapseRuns(d + w + y) == CollapseRuns(d) + ['-'] + CollapseRuns(y)
    ensures CollapseRuns([c] + a + w + y) == CollapseRuns([c] + a) + ['-'] + CollapseRuns(y)
  {
    var d := DropRun(a);
    calc {
      CollapseRuns([c] + a + w + y);
      { Regroup([c], a, w, y); }
      CollapseRuns([c] + (a + w + y));
      { LeadingOther(c, a + w + y); }
      ['-'] + CollapseRuns(DropRun(a + w + y));
      { Regroup3(a, w, y); DropRunConcat(a, w + y); Regroup3(d, w, y); }
      ['-'] + CollapseRuns(d + w + y);
      ['-'] + (CollapseRuns(d) + ['-'] + CollapseRuns(y));
      { Regroup(['-'], CollapseRuns(d), ['-'], CollapseRuns(y)); }
      ['-'] + CollapseRuns(d) + ['-'] + CollapseRuns(y);
      { LeadingOther(c, a); }
      CollapseRuns([c] + a) + ['-'] + CollapseRuns(y);
    }
  }

  /** A leading run of characters outside [a-z0-9] becomes one dash. */
  lemma LeadingRunDash(w: string, y: string)
    requires w != [] && NoSlugChar(w)
    requires y == [] || IsSlugChar(y[0])
    ensures CollapseRuns(w + y) == ['-'] + CollapseRuns(y)
  {
    assert w + y == [w[0]] + (w[1..] + y);
    LeadingOther(w[0], w[1..] + y);
    DropRunBeforeSlugChar(w[1..], y);
  }

  /**
   * A maximal run of characters outside [a-z0-9] (preceded and followed by
   * a letter or digit, or by an end of the string) becomes exactly one
   * dash, and the text on each side is processed on its own.
   */
  lemma {:induction false} MaximalRunBecomesOneDash(x: string, w: string, y: string)
    requires x == [] || IsSlugChar(x[|x| - 1])
    requires w != [] && NoSlugChar(w)
    requires y == [] || IsSlugChar(y[0])
    ensures CollapseRuns(x + w + y) == CollapseRuns(x) + ['-'] + CollapseRuns(y)
    decreases |x|
  {
    if x == [] {
      EmptyHead(x, w, y);
    } else if IsSlugChar(x[0]) {
      MaximalRunBecomesOneDash(x[1..], w, y);
      SlugCharHead(x, w, y);
    } else {
      DropRunKeepsLast(x[1..]);
      MaximalRunBecomesOneDash(DropRun(x[1..]), w, y);
      OtherHead(x, w, y);
    }
  }

  /** The base case of `MaximalRunBecomesOneDash`: the run starts the string. */
  lemma EmptyHead(x: string, w: string, y: string)
    requires x == [] && w != [] && NoSlugChar(w)
    requires y == [] || IsSlugChar(y[0])
    ensures CollapseRuns(x + w + y) == CollapseRuns(x) + ['-'] + CollapseRuns(y)
  {
    var c := CollapseRuns(y);
    calc {
      CollapseRuns(x + w + y);
      { assert x + w + y == w + y; }
      CollapseRuns(w + y);
      { LeadingRunDash(w, y); }
      ['-'] + c;
      { assert CollapseRuns(x) == []; }
      CollapseRuns(x) + ['-'] + c;
    }
  }

  /** The step of `MaximalRunBecomesOneDash` for a leading letter or digit. */
  lemma SlugCharHead(x: string, w: string, y: string)
    requires x != [] && IsSlugChar(x[0])
    requires CollapseRuns(x[1..] + w + y) == CollapseRuns(x[1..]) + ['-'] + CollapseRuns(y)
    ensures CollapseRuns(x + w + y) == CollapseRuns(x) + ['-'] + CollapseRuns(y)
  {
    SplitHead(x);
    SlugCharHeadStep(x[0], x[1..], w, y);
  }

  /** The step of `MaximalRunBecomesOneDash` for any other leading character. */
  lemma OtherHead(x: string, w: string, y: string)
    requires x != [] && !IsSlugChar(x[0])
    requires x[1..] != [] && IsSlugChar(x[|x| - 1])
    requires var d := DropRun(x[1..]);
      CollapseRuns(d + w + y) == CollapseRuns(d) + ['-'] + CollapseRuns(y)
    ensures CollapseRuns(x + w + y) == CollapseRuns(x) + ['-'] + CollapseRuns(y)
  {
    SplitHead(x);
    assert x[1..][|x[1..]| - 1] == x[|x| - 1];
    OtherHeadStep(x[0], x[1..], w, y);
  }

  // ---------------------------------------------------------------------
  // Card listing (`getCards`)

  datatype SortField = Name | CreatedAt | UpdatedAt | Position
  datatype SortOrder = Asc | Desc

  /** The listing parameters the service reads; every field may be missing. */
  datatype SearchParams = SearchParams(
    query: Option<string>,
    typeIds: Option<seq<Id>>,
    folderIds: Option<seq<Id>>,
    sortBy: Option<SortField>,
    sortOrder: Option<SortOrder>,
    page: Option<int>,
    limit: Option<int>)

  const NoParams := SearchParams(None, None, None, None, None, None, None)

  /** `params?.x || fallback` for a number: missing and 0 both take the fallback. */
  function NumberOr(n: Option<int>, fallback: int): (r: int)
    ensures n.Some? && n.value != 0 ==> r == n.value
    ensures n.None? || n.value == 0 ==> r == fallback
  {
    if n.Some? && n.value != 0 then n.value else fallback
  }

  /** A list parameter is used only when present and non-empty (`params?.ids?.length`). */
  function NonEmptyList(ids: Option<seq<Id>>): (r: Option<seq<Id>>)
    ensures r.Some? <==> ids.Some? && |ids.value| > 0
    ensures r.Some? ==> r == ids
  {
    if ids.Some? && |ids.value| > 0 then ids else None
  }

  /** The request the service builds: its filters, its order and the inclusive row range. */
  datatype QueryPlan = QueryPlan(
    typeFilter: Option<seq<Id>>,
    folderFilter: Option<seq<Id>>,
    textFilter: Option<string>,
    sortBy: SortField,
    ascending: bool,
    page: int,
    limit: int,
    from: int,
    to: int)

  function PlanQuery(params: Option<SearchParams>): (plan: QueryPlan)
    // filters only for non-empty lists and a non-empty query
    ensures var p := if params.Some? then params.value else NoParams;
      && (plan.typeFilter.Some? <==> p.typeIds.Some? && |p.typeIds.value| > 0)
      && (plan.folderFilter.Some? <==> p.folderIds.Some? && |p.folderIds.value| > 0)
      && (plan.textFilter.Some? <==> p.query.Some? && p.query.value != [])
      && (plan.textFilter.Some? ==> plan.textFilter == p.query)
      // updated_at descending by default; ascending exactly for 'asc'
      && (plan.sortBy == if p.sortBy.Some? then p.sortBy.value else UpdatedAt)
      && (plan.ascending <==> p.sortOrder == Some(Asc))
      // page 1 of 20 rows by default
      && (plan.page == NumberOr(p.page, 1) && plan.limit == NumberOr(p.limit, 20))
    // the range is inclusive and covers exactly `limit` rows
    ensures plan.from == (plan.page - 1) * plan.limit
    ensures plan.to - plan.from + 1 == plan.limit
  {
    var p := if params.Some? then params.value else NoParams;
    var page := NumberOr(p.page, 1);
    var limit := NumberOr(p.limit, 20);
    var from := (page - 1) * limit;
    QueryPlan(
      NonEmptyList(p.typeIds),
      NonEmptyList(p.folderIds),
      if p.query.Some? && p.query.value != [] then p.query else None,
      if p.sortBy.Some? then p.sortBy.value else UpdatedAt,
      p.sortOrder == Some(Asc),
      page, limit, from, from + limit - 1)
  }

  /** Without parameters: first page of 20, rows 0 to 19, most recently updated first. */
  lemma DefaultPlan()
    ensures var plan := PlanQuery(None);
      plan.page == 1 && plan.limit == 20 && plan.from == 0 && plan.to == 19
      && plan.sortBy == UpdatedAt && !plan.ascending
      && plan.typeFilter.None? && plan.folderFilter.None? && plan.textFilter.None?
  {
  }

  /** Consecutive pages of the same size tile the rows: page n+1 starts right after page n ends. */
  lemma {:induction false} PagesTile(p: SearchParams, n: int)
    requires n != 0 && n + 1 != 0
    ensures PlanQuery(Some(p.(page := Some(n + 1)))).from == PlanQuery(Some(p.(page := Some(n)))).to + 1
  {
    var l := NumberOr(p.limit, 20);
    assert (n + 1 - 1) * l == (n - 1) * l + l;
  }

  /** The summary returned with a page of cards. */
  datatype PageSummary = PageSummary(total: int, page: int, limit: int, hasMore: bool)

  /** `total: count || 0` and `has_more: (count || 0) > to + 1`. */
  function Summarize(plan: QueryPlan, count: Option<int>): (r: PageSummary)
    requires plan.from == (plan.page - 1) * plan.limit && plan.to == plan.from + plan.limit - 1
    ensures r.total == (if count.Some? then count.value else 0)
    ensures r.page == plan.page && r.limit == plan.limit
    ensures r.hasMore <==> r.total > plan.page * plan.limit
  {
    var total := if count.Some? then count.value else 0;
    assert plan.to + 1 == plan.page * plan.limit;
    PageSummary(total, plan.page, plan.limit, total > plan.to + 1)
  }

  /** There are more rows exactly when the next page's range starts before the last row. */
  lemma {:induction false} HasMoreIffNextPageStarts(p: SearchParams, n: int, count: int)
    requires n != 0 && n + 1 != 0
    ensures var plan := PlanQuery(Some(p.(page := Some(n))));
      Summarize(plan, Some(count)).hasMore <==> count > PlanQuery(Some(p.(page := Some(n + 1)))).from
  {
    PagesTile(p, n);
  }

  // ---------------------------------------------------------------------
  // getWorld

  /** The answer of a single-row query: the row, or an error. */
  datatype Response<T> = Row(row: T) | Failure(error: RawError)

  datatype Lookup<T> = Found(value: T) | Absent | Rethrown(error: RawError)

  /** `getWorld`: "no rows" becomes null, every other error is rethrown unchanged. */
  function GetWorld(response: Response<World>): (r: Lookup<World>)
    ensures r.Absent? <==>
              response.Failure? &&
              (response.error.code == Some("PGRST116") || MessageIncludes(response.error, "No rows"))
    ensures r.Rethrown? ==> response.Failure? && r.error == response.error
    ensures r.Found? <==> response.Row?
    ensures r.Found? ==> r.value == response.row
  {
    match response
    case Row(w) => Found(w)
    case Failure(e) =>
      if e.code == Some("PGRST116") || MessageIncludes(e, "No rows") then Absent else Rethrown(e)
  }

  /** The code `getWorld` treats as "no such world" is the one the error parser reports as not found. */
  lemma AbsentAgreesWithParser(e: RawError)
    requires e.code == Some("PGRST116")
    ensures GetWorld(Failure(e)).Absent?
    ensures ParseSupabaseError(Some(e)) == NotFoundError("Resource")
  {
  }
}
