/** Studio's feature registry: the feature classes by id, kept in the order
    they were first registered, and one cached instance per id. A class is
    known by its name, id and order; an instance by the class it was made
    from and a serial number, so that two instances made at different
    times are different values. */
module FeatureRegistry {
  import opened Common
  import opened Ordering

  /** A candidate for registration. `isFeature` says whether it is a class
      deriving from the base feature class. */
  datatype FeatureClass = FeatureClass(name: string, featureId: string, order: int, isFeature: bool)

  datatype Instance = Instance(cls: FeatureClass, serial: nat)

  datatype RegisterError = NotAFeature | IdTaken(featureId: string, existing: string)

  /** The ValueError text for an id already taken by another class. */
  function ErrorText(e: RegisterError): string {
    match e
    case NotAFeature => "feature_class must be a subclass of BaseFeature"
    case IdTaken(id, existing) => "Feature with ID '" + id + "' is already registered with a different class (" + existing + ")"
  }

  predicate ByOrder(a: FeatureClass, b: FeatureClass) {
    a.order <= b.order
  }

  lemma ByOrderTotalPreorder()
    ensures TotalPreorder(ByOrder)
  {
  }

  /** The classes under `ids`, in that order. */
  function ClassesOf(ids: seq<string>, features: map<string, FeatureClass>): (r: seq<FeatureClass>)
    requires forall id :: id in ids ==> id in features
    ensures |r| == |ids|
    ensures forall i :: 0 <= i < |ids| ==> r[i] == features[ids[i]]
  {
    seq(|ids|, i requires 0 <= i < |ids| => features[ids[i]])
  }

  class Registry {
    /** The registered ids, in the order a dict keeps them. */
    var ids: seq<string>
    var features: map<string, FeatureClass>
    var instances: map<string, Instance>
    /** How many instances have been made; the next one gets this serial. */
    var created: nat

    ghost predicate Valid()
      reads this
    {
      Distinct(ids) &&
      (forall id :: id in ids <==> id in features) &&
      (forall id :: id in instances ==> id in features && instances[id].cls == features[id] && instances[id].serial < created)
    }

    constructor ()
      ensures Valid() && ids == [] && features == map[] && instances == map[] && created == 0
    {
      ids := [];
      features := map[];
      instances := map[];
      created := 0;
    }

    /** `register`. */
    method Register(c: FeatureClass, replace: bool) returns (err: Option<RegisterError>)
      requires Valid()
      modifies this
      ensures Valid()
      ensures created == old(created)
      ensures !c.isFeature ==> err == Some(NotAFeature) && ids == old(ids) && features == old(features) && instances == old(instances)
      ensures c.isFeature && c.featureId in old(features) && old(features)[c.featureId] == c ==>
        err.None? && ids == old(ids) && features == old(features) && instances == old(instances)
      ensures c.isFeature && c.featureId in old(features) && old(features)[c.featureId] != c && !replace ==>
        err == Some(IdTaken(c.featureId, old(features)[c.featureId].name)) &&
        ids == old(ids) && features == old(features) && instances == old(instances)
      ensures c.isFeature && c.featureId in old(features) && old(features)[c.featureId] != c && replace ==>
        err.None? && ids == old(ids) && features == old(features)[c.featureId := c] &&
        instances == old(instances) - {c.featureId}
      ensures c.isFeature && c.featureId !in old(features) ==>
        err.None? && ids == old(ids) + [c.featureId] && features == old(features)[c.featureId := c] &&
        instances == old(instances)
    {
      if !c.isFeature {
        return Some(NotAFeature);
      }
      var id := c.featureId;
      if id in features {
        var existing := features[id];
        if existing == c {
          return None;
        }
        if !replace {
          return Some(IdTaken(id, existing.name));
        }
        instances := instances - {id};
      } else {
        ids := ids + [id];
      }
      features := features[id := c];
      return None;
    }

    /** `unregister`: drops the class and its cached instance. */
    method Unregister(id: string) returns (ok: bool)
      requires Valid()
      modifies this
      ensures Valid()
      ensures ok == (id in old(features))
      ensures ids == Without(old(ids), id)
      ensures features == old(features) - {id}
      ensures instances == old(instances) - {id}
      ensures created == old(created)
    {
      ok := id in features;
      if ok {
        ids := Without(ids, id);
        features := features - {id};
        instances := instances - {id};
      } else {
        assert forall x :: x in Without(ids, id) <==> x in ids;
        WithoutAbsent(ids, id);
      }
    }

    /** `get`. */
    function Get(id: string): (r: Option<FeatureClass>)
      reads this
      ensures r.Some? <==> id in features
      ensures r.Some? ==> r.value == features[id]
    {
      if id in features then Some(features[id]) else None
    }

    /** `get_instance`: the cached instance, or a new one made and cached,
        or None for an unregistered id. */
    method GetInstance(id: string) returns (r: Option<Instance>)
      requires Valid()
      modifies this
      ensures Valid()
      ensures ids == old(ids) && features == old(features)
      ensures id in old(instances) ==> r == Some(old(instances)[id]) && instances == old(instances) && created == old(created)
      ensures id !in old(instances) && id in features ==>
        r == Some(Instance(features[id], old(created))) && instances == old(instances)[id := r.value] && created == old(created) + 1
      ensures id !in features ==> r.None? && instances == old(instances) && created == old(created)
      ensures r.Some? ==> r.value.cls == features[id] && id in instances && instances[id] == r.value
    {
      if id in instances {
        return Some(instances[id]);
      }
      var c := Get(id);
      if c.Some? {
        var instance := Instance(c.value, created);
        created := created + 1;
        instances := instances[id := instance];
        return Some(instance);
      }
      return None;
    }

    /** `get_all`: the classes sorted by order; ties keep registration order. */
    function GetAll(): (r: seq<FeatureClass>)
      reads this
      requires Valid()
    {
      SortBy(ClassesOf(ids, features), ByOrder)
    }

    function GetAllIds(): (r: seq<string>)
      reads this
      requires Valid()
      ensures |r| == |GetAll()| && forall i :: 0 <= i < |r| ==> r[i] == GetAll()[i].featureId
    {
      var all := GetAll();
      seq(|all|, i requires 0 <= i < |all| => all[i].featureId)
    }

    /** `get_default_feature_id`. */
    function GetDefaultFeatureId(): (r: Option<string>)
      reads this
      requires Valid()
      ensures r.None? <==> features == map[]
      ensures r.Some? ==> r.value == GetAll()[0].featureId
    {
      var all := GetAll();
      if |all| > 0 then Some(all[0].featureId)
      else
        assert ids == [] by { assert |ClassesOf(ids, features)| == |ids|; }
        assert forall id :: id !in features;
        None
    }

    /** The default id is the first of `get_all_ids`. */
    lemma DefaultIsFirstId()
      requires Valid()
      ensures GetDefaultFeatureId() == if GetAllIds() == [] then None else Some(GetAllIds()[0])
    {
    }

    function IsRegistered(id: string): (r: bool)
      reads this
      ensures r <==> id in features
    {
      id in features
    }

    function Count(): (n: nat)
      reads this
      requires Valid()
      ensures n == |ids|
    {
      CountMatchesIds(ids, features);
      |features|
    }

    /** `clear`. */
    method Clear()
      modifies this
      ensures Valid()
      ensures ids == [] && features == map[] && instances == map[] && created == old(created)
    {
      ids := [];
      features := map[];
      instances := map[];
    }
  }

  /** The registry's classes in order: sorted, the same classes as
      registered, one per id. */
  lemma GetAllFacts(ids: seq<string>, features: map<string, FeatureClass>)
    requires Distinct(ids)
    requires forall id :: id in ids <==> id in features
    ensures var all := SortBy(ClassesOf(ids, features), ByOrder);
      SortedBy(all, ByOrder) &&
      |all| == |ids| &&
      (forall c :: c in all <==> exists id :: id in features && features[id] == c)
  {
    var cs := ClassesOf(ids, features);
    ByOrderTotalPreorder();
    SortBySorted(cs, ByOrder);
    SameElements(SortBy(cs, ByOrder), cs);
    forall c ensures c in cs <==> exists id :: id in features && features[id] == c {
      if exists id :: id in features && features[id] == c {
        var id :| id in features && features[id] == c;
        var i :| 0 <= i < |ids| && ids[i] == id;
        assert cs[i] == c;
      }
    }
  }

  /** The number of registered features is the number of distinct ids. */
  lemma {:induction false} CountMatchesIds(ids: seq<string>, features: map<string, FeatureClass>)
    requires Distinct(ids)
    requires forall id :: id in ids <==> id in features
    ensures |features| == |ids|
    decreases |ids|
  {
    if |ids| > 0 {
      var rest := ids[1..];
      assert forall id :: id in rest <==> id in features - {ids[0]};
      CountMatchesIds(rest, features - {ids[0]});
    }
  }
}
