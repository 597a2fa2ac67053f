/**
 * Which classes and methods get instrumented.  The two blacklists the
 * filter loads from its resources are parameters here: `packageBlacklist`
 * and `classBlacklist`, one entry per line of the resource file.
 */
module Filter {
  import opened Jimple
  import opened Strings

  /** Compiler-generated accessors for private members of nested classes. */
  const ACCESSOR_PREFIX: string := "access$"

  /** The generated resource class of an app. */
  const RESOURCE_CLASS: string := "R"

  /**
   * Whether one package-blacklist entry rules out `packageName`: an entry
   * that starts with "." matches anywhere inside the name, any other entry
   * matches as a prefix.
   */
  function PackageEntryMatches(entry: string, packageName: string): (b: bool)
    ensures StartsWith(packageName, entry) ==> b
    ensures b ==> |entry| <= |packageName|
  {
    if StartsWith(entry, ".") then Contains(packageName, entry) else StartsWith(packageName, entry)
  }

  /** A package is valid when no blacklist entry matches it. */
  function IsValidPackage(packageBlacklist: seq<string>, packageName: string): (b: bool)
    ensures b ==> forall entry :: entry in packageBlacklist ==> !StartsWith(packageName, entry)
    ensures |packageBlacklist| == 0 ==> b
  {
    forall i :: 0 <= i < |packageBlacklist| ==> !PackageEntryMatches(packageBlacklist[i], packageName)
  }

  /**
   * A class is valid when its package is valid, it is not the resource
   * class and no class-blacklist entry is a prefix of its short name.
   */
  function IsValidClass(packageBlacklist: seq<string>, classBlacklist: seq<string>, c: ClassId): (b: bool)
    ensures b ==> c.shortName != RESOURCE_CLASS && IsValidPackage(packageBlacklist, c.packageName) &&
                  forall entry :: entry in classBlacklist ==> !StartsWith(c.shortName, entry)
  {
    if !IsValidPackage(packageBlacklist, c.packageName) then false
    else if c.shortName == RESOURCE_CLASS then false
    else forall i :: 0 <= i < |classBlacklist| ==> !StartsWith(c.shortName, classBlacklist[i])
  }

  /** A method is valid when its declaring class is valid and it is not a synthetic accessor. */
  function IsValidMethod(packageBlacklist: seq<string>, classBlacklist: seq<string>, m: MethodInfo): (b: bool)
    ensures b ==> !StartsWith(m.name, ACCESSOR_PREFIX) && m.declaringClass.shortName != RESOURCE_CLASS &&
                  IsValidPackage(packageBlacklist, m.declaringClass.packageName)
  {
    if IsValidClass(packageBlacklist, classBlacklist, m.declaringClass) then !StartsWith(m.name, ACCESSOR_PREFIX)
    else false
  }

  /**
   * A method of a valid class is valid exactly when its name does not
   * start with "access$"; no method of an invalid class is valid.
   */
  lemma ValidMethodCases(packageBlacklist: seq<string>, classBlacklist: seq<string>, m: MethodInfo)
    ensures IsValidClass(packageBlacklist, classBlacklist, m.declaringClass) ==>
              (IsValidMethod(packageBlacklist, classBlacklist, m) <==> !StartsWith(m.name, ACCESSOR_PREFIX))
    ensures !IsValidClass(packageBlacklist, classBlacklist, m.declaringClass) ==>
              !IsValidMethod(packageBlacklist, classBlacklist, m)
  {
  }

  /**
   * A class is rejected when its package is blacklisted, when it is the
   * resource class "R", or when some class-blacklist entry is a prefix of
   * its short name; and only then.
   */
  lemma ValidClassCases(packageBlacklist: seq<string>, classBlacklist: seq<string>, c: ClassId)
    ensures !IsValidPackage(packageBlacklist, c.packageName) ==> !IsValidClass(packageBlacklist, classBlacklist, c)
    ensures c.shortName == RESOURCE_CLASS ==> !IsValidClass(packageBlacklist, classBlacklist, c)
    ensures forall entry :: entry in classBlacklist && StartsWith(c.shortName, entry) ==>
              !IsValidClass(packageBlacklist, classBlacklist, c)
    ensures !IsValidClass(packageBlacklist, classBlacklist, c) ==>
              !IsValidPackage(packageBlacklist, c.packageName) || c.shortName == RESOURCE_CLASS ||
              exists entry :: entry in classBlacklist && StartsWith(c.shortName, entry)
  {
    if !IsValidClass(packageBlacklist, classBlacklist, c) && IsValidPackage(packageBlacklist, c.packageName) && c.shortName != RESOURCE_CLASS {
      var i :| 0 <= i < |classBlacklist| && StartsWith(c.shortName, classBlacklist[i]);
      assert classBlacklist[i] in classBlacklist;
    }
  }

  /**
   * The two kinds of package entry: one starting with "." rules out every
   * package name it occurs in, at any offset; any other entry rules out
   * exactly the names it is a prefix of.
   */
  lemma PackageEntryKinds(entry: string, packageName: string)
    ensures StartsWith(entry, ".") ==>
              (PackageEntryMatches(entry, packageName) <==> exists i: nat :: OccursAt(packageName, entry, i))
    ensures !StartsWith(entry, ".") ==>
              (PackageEntryMatches(entry, packageName) <==> StartsWith(packageName, entry))
  {
    ContainsIff(packageName, entry);
  }

  /** A dotted entry is matched inside the name, not only at its start. */
  lemma DottedEntryExample()
    ensures !IsValidPackage([".ads"], "com.ads.sdk")
  {
    assert OccursAt("com.ads.sdk", ".ads", 3);
    ContainsIff("com.ads.sdk", ".ads");
    assert PackageEntryMatches([".ads"][0], "com.ads.sdk");
  }

  /** Any other entry is matched only at the start of the name. */
  lemma PrefixEntryExample()
    ensures IsValidPackage(["ads"], "com.ads")
  {
    var entry := ["ads"][0];
    assert entry[0] != '.' && !StartsWith(entry, ".");
    assert "com.ads"[0] != entry[0] && !StartsWith("com.ads", entry);
    assert !PackageEntryMatches(entry, "com.ads");
  }

  /** With both blacklists empty, every class but the resource class is instrumented. */
  lemma EmptyBlacklists(c: ClassId)
    ensures IsValidClass([], [], c) <==> c.shortName != RESOURCE_CLASS
  {
  }

  /** An empty entry is a prefix of every name, so it rules out everything. */
  lemma EmptyEntryRejectsAll(packageBlacklist: seq<string>, classBlacklist: seq<string>, c: ClassId, packageName: string)
    ensures "" in packageBlacklist ==> !IsValidPackage(packageBlacklist, packageName)
    ensures "" in classBlacklist ==> !IsValidClass(packageBlacklist, classBlacklist, c)
  {
    if "" in packageBlacklist {
      var i :| 0 <= i < |packageBlacklist| && packageBlacklist[i] == "";
      assert PackageEntryMatches(packageBlacklist[i], packageName);
    }
    if "" in classBlacklist {
      var i :| 0 <= i < |classBlacklist| && classBlacklist[i] == "";
      assert StartsWith(c.shortName, classBlacklist[i]);
    }
  }

  /**
   * Adding blacklist entries never makes anything valid: whatever passes
   * the larger blacklists passes the smaller ones.
   */
  lemma Monotone(pb: seq<string>, cb: seq<string>, pb': seq<string>, cb': seq<string>, m: MethodInfo)
    requires forall e :: e in pb ==> e in pb'
    requires forall e :: e in cb ==> e in cb'
    ensures IsValidPackage(pb', m.declaringClass.packageName) ==> IsValidPackage(pb, m.declaringClass.packageName)
    ensures IsValidClass(pb', cb', m.declaringClass) ==> IsValidClass(pb, cb, m.declaringClass)
    ensures IsValidMethod(pb', cb', m) ==> IsValidMethod(pb, cb, m)
  {
    var c := m.declaringClass;
    if IsValidPackage(pb', c.packageName) {
      forall i | 0 <= i < |pb|
        ensures !PackageEntryMatches(pb[i], c.packageName)
      {
        assert pb[i] in pb';
        var j :| 0 <= j < |pb'| && pb'[j] == pb[i];
      }
    }
    if IsValidClass(pb', cb', c) {
      forall i | 0 <= i < |cb|
        ensures !StartsWith(c.shortName, cb[i])
      {
        assert cb[i] in cb';
        var j :| 0 <= j < |cb'| && cb'[j] == cb[i];
      }
    }
  }
}
