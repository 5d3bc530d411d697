/** `Classes.childClassOf`: the class, on the superclass chain of an object's
    runtime class, whose immediate superclass is a given class. Classes are
    numbered so that a superclass always has a smaller number than its
    subclasses, which is how the finiteness of Java's superclass chains is
    stated here. */
module Classes {
  import opened PutRecords

  /** `parent[k]` is the superclass of class k, or -1 for none (`Object`, an
      interface); `isInterface[k]` says whether class k is an interface. */
  datatype Hierarchy = Hierarchy(parent: seq<int>, isInterface: seq<bool>)

  predicate Valid(h: Hierarchy) {
    |h.parent| == |h.isInterface|
    && forall k :: 0 <= k < |h.parent| ==> -1 <= h.parent[k] < k
  }

  /** What `childClassOf` is given as its instance: null, the class object of
      `Object` itself, or an object whose runtime class is `cls`. */
  datatype Instance = NullInstance | ObjectClassObject | Of(cls: nat)

  /** `getSuperclass()`. */
  function Super(h: Hierarchy, k: nat): (p: Option<nat>)
    requires Valid(h) && k < |h.parent|
    ensures p.Some? ==> p.value < k
  {
    if h.parent[k] < 0 then None else Some(h.parent[k] as nat)
  }

  /** The superclass chain from class k up to its root, k first: each class
      is followed by its superclass, and the last one has none. */
  function Chain(h: Hierarchy, k: nat): (c: seq<nat>)
    requires Valid(h) && k < |h.parent|
    ensures |c| > 0 && c[0] == k
    ensures forall j :: 0 <= j < |c| ==> c[j] <= k
    ensures forall j :: 0 <= j < |c| - 1 ==> c[j] < |h.parent| && Super(h, c[j]) == Some(c[j + 1])
    ensures c[|c| - 1] < |h.parent| && Super(h, c[|c| - 1]).None?
    decreases k
  {
    match Super(h, k)
    case None => [k]
    case Some(p) => [k] + Chain(h, p)
  }

  /** The walk of the loop, from class k up: the first class whose superclass
      is `parentClass`, or none once the root is passed. */
  function Walk(h: Hierarchy, parentClass: Option<nat>, k: nat): Option<nat>
    requires Valid(h) && k < |h.parent|
    decreases k
  {
    if Super(h, k) == parentClass then Some(k)
    else if Super(h, k).None? then None
    else Walk(h, parentClass, Super(h, k).value)
  }

  /** `childClassOf(parentClass, instance)`. */
  function ChildClassOfSpec(h: Hierarchy, parentClass: Option<nat>, instance: Instance): Option<nat>
    requires Valid(h) && (instance.Of? ==> instance.cls < |h.parent|)
    requires parentClass.Some? ==> parentClass.value < |h.parent|
  {
    if instance.NullInstance? || instance.ObjectClassObject? then None
    else if parentClass.Some? && h.isInterface[parentClass.value] then None
    else Walk(h, parentClass, instance.cls)
  }

  /** The loop of `childClassOf`, walking up the chain. */
  method ChildClassOf(h: Hierarchy, parentClass: Option<nat>, instance: Instance) returns (child: Option<nat>)
    requires Valid(h) && (instance.Of? ==> instance.cls < |h.parent|)
    requires parentClass.Some? ==> parentClass.value < |h.parent|
    ensures child == ChildClassOfSpec(h, parentClass, instance)
  {
    if instance.NullInstance? || instance.ObjectClassObject? {
      return None;
    }
    if parentClass.Some? {
      if h.isInterface[parentClass.value] {
        return None;
      }
    }
    var childClass: nat := instance.cls;
    while true
      invariant childClass < |h.parent|
      invariant Walk(h, parentClass, childClass) == Walk(h, parentClass, instance.cls)
      decreases childClass
    {
      var parent := Super(h, childClass);
      if parent == parentClass {
        return Some(childClass);
      }
      if parent.None? {
        return None;
      }
      childClass := parent.value;
    }
  }

  /** A class the walk finds lies on the chain and has `parentClass` as its superclass. */
  lemma {:induction false} WalkFound(h: Hierarchy, parentClass: Option<nat>, k: nat)
    requires Valid(h) && k < |h.parent|
    ensures Walk(h, parentClass, k).Some? ==>
      Walk(h, parentClass, k).value in Chain(h, k)
      && Walk(h, parentClass, k).value < |h.parent|
      && Super(h, Walk(h, parentClass, k).value) == parentClass
    decreases k
  {
    if Super(h, k) != parentClass && Super(h, k).Some? {
      WalkFound(h, parentClass, Super(h, k).value);
      assert Chain(h, k) == [k] + Chain(h, Super(h, k).value);
    }
  }

  /** No class of `chain` has `parentClass` as its superclass. */
  predicate NoneHas(h: Hierarchy, parentClass: Option<nat>, chain: seq<nat>)
    requires Valid(h)
  {
    forall j :: 0 <= j < |chain| ==> chain[j] < |h.parent| && Super(h, chain[j]) != parentClass
  }

  lemma NoneHasCons(h: Hierarchy, parentClass: Option<nat>, k: nat, chain: seq<nat>)
    requires Valid(h) && k < |h.parent|
    ensures NoneHas(h, parentClass, [k] + chain) <==> Super(h, k) != parentClass && NoneHas(h, parentClass, chain)
  {
    var all := [k] + chain;
    if NoneHas(h, parentClass, all) {
      assert all[0] == k;
      forall j | 0 <= j < |chain|
        ensures chain[j] < |h.parent| && Super(h, chain[j]) != parentClass
      {
        assert all[j + 1] == chain[j];
      }
    } else if Super(h, k) != parentClass && NoneHas(h, parentClass, chain) {
      forall j | 0 <= j < |all|
        ensures all[j] < |h.parent| && Super(h, all[j]) != parentClass
      {
        if j > 0 {
          assert all[j] == chain[j - 1];
        }
      }
      assert false;
    }
  }

  /** The walk finds nothing exactly when no class of the chain has
      `parentClass` as its superclass. */
  lemma {:induction false} WalkMisses(h: Hierarchy, parentClass: Option<nat>, k: nat)
    requires Valid(h) && k < |h.parent|
    ensures Walk(h, parentClass, k).None? <==> NoneHas(h, parentClass, Chain(h, k))
    decreases k
  {
    match Super(h, k)
    case None =>
      NoneHasCons(h, parentClass, k, []);
    case Some(p) =>
      WalkMisses(h, parentClass, p);
      NoneHasCons(h, parentClass, k, Chain(h, p));
  }

  /** With no parent class the walk ends at the root of the chain, the class
      whose superclass is null. */
  lemma {:induction false} WalkToRoot(h: Hierarchy, k: nat)
    requires Valid(h) && k < |h.parent|
    ensures Walk(h, None, k).Some?
    ensures Walk(h, None, k).value == Chain(h, k)[|Chain(h, k)| - 1]
    ensures Walk(h, None, k).value < |h.parent| && Super(h, Walk(h, None, k).value).None?
    decreases k
  {
    if Super(h, k).Some? {
      WalkToRoot(h, Super(h, k).value);
    }
  }

  /** What `childClassOf` promises: null for a null instance, for the class
      object of `Object` and for an interface parent; otherwise a class of the
      instance's chain whose superclass is `parentClass`, null exactly when no
      class of the chain has it, and the root of the chain for a null parent. */
  lemma ChildClassOfFacts(h: Hierarchy, parentClass: Option<nat>, instance: Instance)
    requires Valid(h) && (instance.Of? ==> instance.cls < |h.parent|)
    requires parentClass.Some? ==> parentClass.value < |h.parent|
    ensures instance.NullInstance? || instance.ObjectClassObject? ==> ChildClassOfSpec(h, parentClass, instance).None?
    ensures parentClass.Some? && h.isInterface[parentClass.value] ==> ChildClassOfSpec(h, parentClass, instance).None?
    ensures ChildClassOfSpec(h, parentClass, instance).Some? ==>
      instance.Of?
      && ChildClassOfSpec(h, parentClass, instance).value in Chain(h, instance.cls)
      && ChildClassOfSpec(h, parentClass, instance).value < |h.parent|
      && Super(h, ChildClassOfSpec(h, parentClass, instance).value) == parentClass
    ensures instance.Of? && !(parentClass.Some? && h.isInterface[parentClass.value]) ==>
      (ChildClassOfSpec(h, parentClass, instance).None? <==> NoneHas(h, parentClass, Chain(h, instance.cls)))
    ensures instance.Of? && parentClass.None? ==>
      ChildClassOfSpec(h, parentClass, instance)
        == Some(Chain(h, instance.cls)[|Chain(h, instance.cls)| - 1])
  {
    if instance.Of? {
      WalkFound(h, parentClass, instance.cls);
      WalkMisses(h, parentClass, instance.cls);
      WalkToRoot(h, instance.cls);
    }
  }
}
