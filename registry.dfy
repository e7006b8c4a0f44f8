/** The gallery's grader registry: one process-wide registry mapping grader
    names to grader classes (or factories), with registration that does not
    silently replace an entry, removal, lookup, a sorted listing and a
    listing grouped by the category the class's module path suggests. */
module Registry {
  import opened Common
  import opened GraderSchema
  import opened Ordering

  /** A registered grader class or callable: an identity, and the value of its
      `__module__` attribute when it has one. */
  datatype GraderClass = GraderClass(id: nat, modulePath: Option<string>)

  /** The category inferred from a module path: the first of four known
      substrings it contains, else "other"; no module path means "other". */
  function CategoryOf(cls: GraderClass): (c: string)
    ensures cls.modulePath.None? ==> c == "other"
    ensures cls.modulePath.Some? && Contains(cls.modulePath.value, "nlp_metrics") ==> c == "nlp_metrics"
    ensures c == "text_similarity" <==> cls.modulePath.Some? && !Contains(cls.modulePath.value, "nlp_metrics") && Contains(cls.modulePath.value, "text_similarity")
    ensures c == "string_check" <==> cls.modulePath.Some? && !Contains(cls.modulePath.value, "nlp_metrics") && !Contains(cls.modulePath.value, "text_similarity") && Contains(cls.modulePath.value, "string_check")
    ensures c == "format_check" <==> cls.modulePath.Some? && !Contains(cls.modulePath.value, "nlp_metrics") && !Contains(cls.modulePath.value, "text_similarity") && !Contains(cls.modulePath.value, "string_check") && Contains(cls.modulePath.value, "format_check")
    ensures c in {"nlp_metrics", "text_similarity", "string_check", "format_check", "other"}
  {
    match cls.modulePath
    case None => "other"
    case Some(path) =>
      if Contains(path, "nlp_metrics") then "nlp_metrics"
      else if Contains(path, "text_similarity") then "text_similarity"
      else if Contains(path, "string_check") then "string_check"
      else if Contains(path, "format_check") then "format_check"
      else "other"
  }

  /** `s` without any occurrence of `x`, order kept. */
  function Remove<T(==,!new)>(s: seq<T>, x: T): (r: seq<T>)
    decreases |s|
    ensures forall y :: y in r <==> y in s && y != x
    ensures |r| <= |s|
  {
    if |s| == 0 then []
    else Remove(s[..|s| - 1], x) + (if s[|s| - 1] == x then [] else [s[|s| - 1]])
  }

  lemma {:induction false} RemoveDistinct<T(!new)>(s: seq<T>, x: T)
    requires Distinct(s)
    ensures Distinct(Remove(s, x))
    decreases |s|
  {
    if |s| > 0 {
      var init := s[..|s| - 1];
      assert Distinct(init);
      RemoveDistinct(init, x);
      assert s[|s| - 1] !in init;
    }
  }

  /** The names of `items` whose class falls in category `c`, in order. */
  function InCategory(items: seq<(string, GraderClass)>, c: string): (r: seq<string>)
    decreases |items|
    ensures forall n :: n in r ==> exists k :: 0 <= k < |items| && items[k].0 == n && CategoryOf(items[k].1) == c
  {
    if |items| == 0 then []
    else
      var init := items[..|items| - 1];
      var last := items[|items| - 1];
      var r := InCategory(init, c) + (if CategoryOf(last.1) == c then [last.0] else []);
      assert forall n :: n in InCategory(init, c) ==> exists k :: 0 <= k < |init| && init[k].0 == n && CategoryOf(init[k].1) == c;
      r
  }

  /** The grouping `list_graders_by_category` builds, one step per dict item. */
  function Grouped(items: seq<(string, GraderClass)>): map<string, seq<string>>
    decreases |items|
  {
    if |items| == 0 then map[]
    else
      var m := Grouped(items[..|items| - 1]);
      var last := items[|items| - 1];
      var c := CategoryOf(last.1);
      m[c := (if c in m then m[c] else []) + [last.0]]
  }

  /** The loop of `list_graders_by_category` over the dict's items. */
  method GroupByCategory(items: seq<(string, GraderClass)>) returns (categories: map<string, seq<string>>)
    ensures categories == Grouped(items)
  {
    categories := map[];
    var k := 0;
    while k < |items|
      invariant 0 <= k <= |items|
      invariant categories == Grouped(items[..k])
    {
      assert items[..k + 1][..k] == items[..k];
      var (name, cls) := items[k];
      var c := CategoryOf(cls);
      if c !in categories {
        categories := categories[c := []];
      }
      categories := categories[c := categories[c] + [name]];
      k := k + 1;
    }
    assert items[..k] == items;
  }

  /** The grouping has a key exactly for the categories some item falls in,
      and under each key the names of that category in dict order. */
  lemma {:induction false} GroupedIsPartition(items: seq<(string, GraderClass)>)
    ensures forall c :: c in Grouped(items) <==> exists k :: 0 <= k < |items| && CategoryOf(items[k].1) == c
    ensures forall c :: c in Grouped(items) ==> Grouped(items)[c] == InCategory(items, c)
    decreases |items|
  {
    GroupedKeys(items);
    if |items| > 0 {
      var init := items[..|items| - 1];
      GroupedIsPartition(init);
      var last := items[|items| - 1];
      forall c | c in Grouped(items) ensures Grouped(items)[c] == InCategory(items, c) {
        if c != CategoryOf(last.1) {
          assert c in Grouped(init);
        } else if c !in Grouped(init) {
          NoneInCategory(init, c);
        }
      }
    }
  }

  /** The keys of the grouping are the categories of the items. */
  lemma {:induction false} GroupedKeys(items: seq<(string, GraderClass)>)
    ensures forall c :: c in Grouped(items) <==> HasCategory(items, c)
    decreases |items|
  {
    if |items| > 0 {
      GroupedKeys(items[..|items| - 1]);
      forall c ensures c in Grouped(items) <==> HasCategory(items, c) {
        HasCategoryStep(items, c);
      }
    }
  }

  /** Some item falls in category `c`. */
  predicate HasCategory(items: seq<(string, GraderClass)>, c: string) {
    exists k :: 0 <= k < |items| && CategoryOf(items[k].1) == c
  }

  /** An item of category `c` is among the earlier ones or is the last. */
  lemma HasCategoryStep(items: seq<(string, GraderClass)>, c: string)
    requires |items| > 0
    ensures HasCategory(items, c) <==>
      HasCategory(items[..|items| - 1], c) || CategoryOf(items[|items| - 1].1) == c
  {
    var init := items[..|items| - 1];
    if HasCategory(init, c) {
      var k :| 0 <= k < |init| && CategoryOf(init[k].1) == c;
      assert items[k] == init[k];
    }
    if HasCategory(items, c) {
      var k :| 0 <= k < |items| && CategoryOf(items[k].1) == c;
      if k < |init| { assert init[k] == items[k]; }
    }
  }

  /** No item of category `c`, no name under it. */
  lemma {:induction false} NoneInCategory(items: seq<(string, GraderClass)>, c: string)
    requires forall k :: 0 <= k < |items| ==> CategoryOf(items[k].1) != c
    ensures InCategory(items, c) == []
    decreases |items|
  {
    if |items| > 0 {
      NoneInCategory(items[..|items| - 1], c);
    }
  }

  /** Item k's name is listed under its own category. */
  lemma {:induction false} InCategoryHas(items: seq<(string, GraderClass)>, k: nat)
    requires k < |items|
    ensures items[k].0 in InCategory(items, CategoryOf(items[k].1))
    decreases |items|
  {
    if k < |items| - 1 {
      InCategoryHas(items[..|items| - 1], k);
    }
  }

  /** With distinct names, every registered name appears in the grouping
      under exactly one category: the one its class falls in. */
  lemma EachNameOnce(items: seq<(string, GraderClass)>)
    requires forall i, j :: 0 <= i < j < |items| ==> items[i].0 != items[j].0
    ensures forall k :: 0 <= k < |items| ==> CategoryOf(items[k].1) in Grouped(items) && items[k].0 in Grouped(items)[CategoryOf(items[k].1)]
    ensures forall c, k :: c in Grouped(items) && 0 <= k < |items| && items[k].0 in Grouped(items)[c] ==> c == CategoryOf(items[k].1)
  {
    GroupedIsPartition(items);
    forall k | 0 <= k < |items|
      ensures CategoryOf(items[k].1) in Grouped(items) && items[k].0 in Grouped(items)[CategoryOf(items[k].1)]
    {
      InCategoryHas(items, k);
    }
    forall c, k | c in Grouped(items) && 0 <= k < |items| && items[k].0 in Grouped(items)[c]
      ensures c == CategoryOf(items[k].1)
    {
      var k' :| 0 <= k' < |items| && items[k'].0 == items[k].0 && CategoryOf(items[k'].1) == c;
    }
  }

  class GraderRegistry {
    /** The dict's keys in insertion order. */
    var names: seq<string>
    var graders: map<string, GraderClass>

    predicate Valid()
      reads this
    {
      Distinct(names) && Elems(names) == graders.Keys
    }

    constructor ()
      ensures Valid() && names == [] && graders == map[]
    {
      names := [];
      graders := map[];
    }

    /** `register`: an existing name is replaced only with `override`; a new
        name is added at the end of the dict. */
    method Register(name: string, cls: GraderClass, override: bool)
      requires Valid()
      modifies this
      ensures Valid()
      ensures name in old(graders) && !override ==> graders == old(graders) && names == old(names)
      ensures name !in old(graders) ==> graders == old(graders)[name := cls] && names == old(names) + [name]
      ensures name in old(graders) && override ==> graders == old(graders)[name := cls] && names == old(names)
    {
      if name in graders && !override {
        return;
      }
      if name !in graders {
        assert name !in Elems(names);
        names := names + [name];
      }
      graders := graders[name := cls];
    }

    /** `unregister`: true iff the name was registered; it is gone afterwards. */
    method Unregister(name: string) returns (removed: bool)
      requires Valid()
      modifies this
      ensures Valid()
      ensures removed <==> name in old(graders)
      ensures graders == old(graders) - {name}
      ensures names == Remove(old(names), name)
    {
      removed := name in graders;
      RemoveDistinct(names, name);
      names := Remove(names, name);
      graders := graders - {name};
    }

    /** `get`: the registered class, None when absent. */
    function Get(name: string): (r: Option<GraderClass>)
      reads this
      ensures r.Some? <==> name in graders
      ensures r.Some? ==> r.value == graders[name]
    {
      if name in graders then Some(graders[name]) else None
    }

    /** `get_instance`: construct the registered class with the caller's
        keyword arguments; None when absent or when construction raises. */
    function GetInstance<I>(name: string, construct: GraderClass -> Result<I>): (r: Option<I>)
      reads this
      ensures r.Some? <==> name in graders && construct(graders[name]).Ok?
      ensures r.Some? ==> r.value == construct(graders[name]).value
    {
      match Get(name)
      case None => None
      case Some(cls) =>
        match construct(cls)
        case Ok(g) => Some(g)
        case Err(_) => None
    }

    /** `list_graders`: every registered name once, in ascending order. */
    function ListGraders(): (r: seq<string>)
      reads this
      requires Valid()
      ensures |r| == |graders|
      ensures forall n :: n in r <==> n in graders
      ensures SortedBy(r, StrLe)
      ensures Distinct(r)
    {
      var r := SortBy(names, StrLe);
      StrLeTotalPreorder();
      SortBySorted(names, StrLe);
      SameElements(r, names);
      SeqDistinctSize(names);
      DistinctPermutation(names, r);
      assert forall n :: n in names <==> n in Elems(names);
      r
    }

    /** The dict's items in insertion order. */
    function Items(): (items: seq<(string, GraderClass)>)
      reads this
      requires Valid()
      ensures |items| == |names|
      ensures forall k :: 0 <= k < |items| ==> items[k] == (names[k], graders[names[k]])
    {
      assert forall k :: 0 <= k < |names| ==> names[k] in Elems(names);
      seq(|names|, k requires 0 <= k < |names| reads this requires Valid() => (names[k], graders[names[k]]))
    }

    /** `list_graders_by_category`: the grouping of the registered names by
        the category of their class. */
    method ListByCategory() returns (categories: map<string, seq<string>>)
      requires Valid()
      ensures categories == Grouped(Items())
    {
      var items := Items();
      categories := GroupByCategory(items);
    }

    predicate IsRegistered(name: string)
      reads this
    {
      name in graders
    }

    /** `clear`: nothing stays registered. */
    method Clear()
      modifies this
      ensures Valid() && names == [] && graders == map[]
    {
      names := [];
      graders := map[];
    }

    /** `__len__`: one per registered name. */
    function Len(): (n: nat)
      reads this
      requires Valid()
      ensures n == |graders| == |names|
    {
      SeqDistinctSize(names);
      |names|
    }
  }

  /** A sequence without repeats has as many elements as entries. */
  lemma {:induction false} SeqDistinctSize<T>(s: seq<T>)
    requires Distinct(s)
    ensures |Elems(s)| == |s|
    decreases |s|
  {
    if |s| > 0 {
      var init := s[..|s| - 1];
      assert Distinct(init);
      SeqDistinctSize(init);
      assert Elems(s) == Elems(init) + {s[|s| - 1]};
      assert s[|s| - 1] !in Elems(init);
    }
  }

  /** A sequence has no repeats iff its multiset counts every value at most once. */
  lemma {:induction false} DistinctCounts<T>(s: seq<T>)
    ensures Distinct(s) <==> forall x :: multiset(s)[x] <= 1
    decreases |s|
  {
    if |s| > 0 {
      var init := s[..|s| - 1];
      var last := s[|s| - 1];
      DistinctCounts(init);
      assert s == init + [last];
      assert multiset(s) == multiset(init) + multiset{last};
      if Distinct(s) {
        assert Distinct(init);
        assert last !in init;
      } else if Distinct(init) {
        var i, j :| 0 <= i < j < |s| && s[i] == s[j];
        assert j == |s| - 1 && init[i] == last;
        assert multiset(s)[last] == multiset(init)[last] + 1;
      } else {
        var x :| multiset(init)[x] > 1;
        assert multiset(s)[x] >= multiset(init)[x];
      }
    }
  }

  /** Reordering keeps a sequence free of repeats. */
  lemma DistinctPermutation<T>(a: seq<T>, b: seq<T>)
    requires Distinct(a) && multiset(a) == multiset(b)
    ensures Distinct(b)
  {
    DistinctCounts(a);
    DistinctCounts(b);
  }

  /** The class-level slot `__new__` consults: the one registry of the process. */
  class Runtime {
    var instance: GraderRegistry?

    constructor ()
      ensures instance == null
    {
      instance := null;
    }

    /** `GraderRegistry()`: the first call creates an empty registry, every
        later call returns that same registry unchanged. */
    method NewRegistry() returns (r: GraderRegistry)
      modifies this
      ensures old(instance) != null ==> r == old(instance)
      ensures old(instance) == null ==> fresh(r) && r.Valid() && r.graders == map[] && r.names == []
      ensures instance == r
    {
      if instance == null {
        instance := new GraderRegistry();
      }
      r := instance;
    }
  }
}
