/**
 * The class hierarchy the fragment linker walks: a read-only registry from
 * class name to its superclass and declared methods, and the search for the
 * nearest ancestor that declares `getActivity`.
 */
module Hierarchy {
  import opened Jimple

  datatype MethodDecl = MethodDecl(name: string, subsignature: string)

  datatype ClassInfo = ClassInfo(superName: Option<string>, methods: seq<MethodDecl>)

  /** The loaded classes, by fully qualified name. */
  type Scene = map<string, ClassInfo>

  const GET_ACTIVITY: string := "getActivity"

  /** Number of superclass steps from `c` to a root class, if reached within `fuel` steps. */
  function Depth(h: Scene, c: string, fuel: nat): (r: Option<nat>)
    ensures r.Some? ==> c in h && r.value <= fuel
    decreases fuel
  {
    if c !in h then None
    else
      match h[c].superName
      case None => Some(0)
      case Some(p) =>
        if fuel == 0 then None
        else
          match Depth(h, p, fuel - 1)
          case None => None
          case Some(d) => Some(d + 1)
  }

  /** Every superclass chain stays inside the scene and ends at a root: no cycles. */
  ghost predicate WellFormed(h: Scene)
  {
    forall c {:trigger Depth(h, c, |h|)} :: c in h ==> Depth(h, c, |h|).Some?
  }

  ghost function Rank(h: Scene, c: string): nat
    requires WellFormed(h) && c in h
  {
    Depth(h, c, |h|).value
  }

  lemma {:induction false} DepthStable(h: Scene, c: string, f: nat, g: nat)
    requires Depth(h, c, f).Some?
    requires g >= Depth(h, c, f).value
    ensures Depth(h, c, g) == Depth(h, c, f)
    decreases f
  {
    match h[c].superName
    case None =>
    case Some(p) =>
      DepthStable(h, p, f - 1, g - 1);
  }

  /** Moving to the superclass stays in the scene and strictly lowers the rank. */
  lemma RankStep(h: Scene, c: string)
    requires WellFormed(h) && c in h && h[c].superName.Some?
    ensures h[c].superName.value in h
    ensures Rank(h, h[c].superName.value) < Rank(h, c)
  {
    var p := h[c].superName.value;
    var d := Depth(h, c, |h|).value;
    assert Depth(h, p, |h| - 1) == Some(d - 1);
    DepthStable(h, p, |h| - 1, |h|);
  }

  /** The strict ancestors of `c`, nearest first, ending with a root class. */
  ghost function Ancestors(h: Scene, c: string): seq<string>
    requires WellFormed(h) && c in h
    decreases Rank(h, c)
  {
    match h[c].superName
    case None => []
    case Some(p) => RankStep(h, c); [p] + Ancestors(h, p)
  }

  /** Index of the first declaration called `name`, in declaration order. */
  function FirstNamed(ms: seq<MethodDecl>, name: string): (r: Option<nat>)
    ensures r.Some? ==> r.value < |ms| && ms[r.value].name == name &&
                        forall j :: 0 <= j < r.value ==> ms[j].name != name
    ensures r.None? ==> forall j :: 0 <= j < |ms| ==> ms[j].name != name
  {
    if ms == [] then None
    else if ms[0].name == name then Some(0)
    else
      match FirstNamed(ms[1..], name)
      case None => None
      case Some(i) => Some(i + 1)
  }

  /** A class the search examines and accepts: it has a superclass and declares getActivity. */
  predicate Candidate(h: Scene, c: string)
  {
    c in h && h[c].superName.Some? && FirstNamed(h[c].methods, GET_ACTIVITY).Some?
  }

  /** Where `getActivity` was found: the class, and its first declaration there. */
  datatype Found = Found(cls: string, decl: MethodDecl)

  /** The walk starting at `c` itself. A class without a superclass ends it unexamined. */
  function SearchFrom(h: Scene, c: string): (r: Option<Found>)
    requires WellFormed(h) && c in h
    ensures r.Some? ==> r.value.cls in h && h[r.value.cls].superName.Some? && r.value.decl.name == GET_ACTIVITY &&
                        Rank(h, r.value.cls) <= Rank(h, c)
    decreases Rank(h, c)
  {
    match h[c].superName
    case None => None
    case Some(p) =>
      match FirstNamed(h[c].methods, GET_ACTIVITY)
      case Some(i) => Some(Found(c, h[c].methods[i]))
      case None => RankStep(h, c); SearchFrom(h, p)
  }

  /** The walk for a fragment: it starts at the fragment's direct superclass. */
  function FindGetActivity(h: Scene, fragment: string): (r: Option<Found>)
    requires WellFormed(h) && fragment in h
    ensures r.Some? ==> r.value.cls != fragment && r.value.decl.name == GET_ACTIVITY
  {
    match h[fragment].superName
    case None => None
    case Some(p) => RankStep(h, fragment); SearchFrom(h, p)
  }

  /** Every ancestor is in the scene and ranks strictly below the class. */
  lemma {:induction false} AncestorsBelow(h: Scene, c: string)
    requires WellFormed(h) && c in h
    ensures forall x :: x in Ancestors(h, c) ==> x in h && Rank(h, x) < Rank(h, c)
    decreases Rank(h, c)
  {
    match h[c].superName
    case None =>
    case Some(p) =>
      RankStep(h, c);
      AncestorsBelow(h, p);
  }

  /** The chain the walk from `c` visits: `c` itself, then its ancestors. */
  ghost function Chain(h: Scene, c: string): seq<string>
    requires WellFormed(h) && c in h
  {
    [c] + Ancestors(h, c)
  }

  /** No class of `chain` is a candidate. */
  ghost predicate NoCandidate(h: Scene, chain: seq<string>)
  {
    forall j :: 0 <= j < |chain| ==> !Candidate(h, chain[j])
  }

  /** SearchFrom finds exactly the first candidate on the chain from `c` upwards. */
  lemma {:induction false} SearchFromFirst(h: Scene, c: string)
    requires WellFormed(h) && c in h
    ensures SearchFrom(h, c).None? ==> NoCandidate(h, Chain(h, c))
    ensures var chain := Chain(h, c);
            var r := SearchFrom(h, c);
            r.Some? ==>
              exists i :: 0 <= i < |chain| && chain[i] == r.value.cls && Candidate(h, chain[i]) &&
                          NoCandidate(h, chain[..i]) &&
                          r.value.decl == h[r.value.cls].methods[FirstNamed(h[r.value.cls].methods, GET_ACTIVITY).value]
    decreases Rank(h, c)
  {
    var chain := Chain(h, c);
    match h[c].superName
    case None =>
      assert chain == [c];
    case Some(p) =>
      if FirstNamed(h[c].methods, GET_ACTIVITY).None? {
        RankStep(h, c);
        SearchFromFirst(h, p);
        var rest := Chain(h, p);
        assert chain == [c] + rest;
        assert !Candidate(h, c);
        assert SearchFrom(h, c) == SearchFrom(h, p);
        if SearchFrom(h, p).Some? {
          var r := SearchFrom(h, p).value;
          var i :| 0 <= i < |rest| && rest[i] == r.cls && Candidate(h, rest[i]) &&
                   NoCandidate(h, rest[..i]) &&
                   r.decl == h[r.cls].methods[FirstNamed(h[r.cls].methods, GET_ACTIVITY).value];
          assert chain[i + 1] == rest[i];
          assert chain[..i + 1] == [c] + rest[..i];
          assert SearchFrom(h, c).value == r;
        } else {
          assert NoCandidate(h, rest);
        }
      } else {
        assert chain[0] == c && Candidate(h, c);
        assert chain[..0] == [];
      }
  }

  /**
   * The fragment linker's search: it looks only at strict ancestors, never at
   * the fragment class itself; it returns the nearest ancestor that has a
   * superclass and declares getActivity, with its first such declaration;
   * it returns nothing exactly when no such ancestor exists.
   */
  lemma FindGetActivityFirst(h: Scene, fragment: string)
    requires WellFormed(h) && fragment in h
    ensures var chain := Ancestors(h, fragment);
            match FindGetActivity(h, fragment)
            case Some(r) =>
              r.cls != fragment && r.cls in h && h[r.cls].superName.Some? &&
              r.decl.name == GET_ACTIVITY && r.decl in h[r.cls].methods &&
              exists i :: 0 <= i < |chain| && chain[i] == r.cls && NoCandidate(h, chain[..i])
            case None =>
              NoCandidate(h, chain)
  {
    AncestorsBelow(h, fragment);
    match h[fragment].superName
    case None =>
    case Some(p) =>
      RankStep(h, fragment);
      SearchFromFirst(h, p);
      assert Ancestors(h, fragment) == [p] + Ancestors(h, p);
  }
}
