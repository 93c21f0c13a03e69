/** The fo:layout-master-set formatting object: the registry of simple page
    masters and page-sequence masters, keyed by master-name in one shared
    namespace, together with its whole-set region-name check (section 7.25.7
    of the XSL 1.0 Recommendation) and its content model
    `(simple-page-master|page-sequence-master)+` (section 6.4.6). */
module Pagination {
  import opened Outcomes

  /** One region of a simple page master: the user-visible `region-name` and
      the name of the region class it belongs to (`xsl-region-body`,
      `xsl-region-before`, ...), which is also its default region-name. */
  datatype Region = Region(regionName: string, defaultRegionName: string)

  /** A simple page master, abstracted to its master-name and its regions in
      the order its region table yields them. */
  datatype SimplePageMaster = SimplePageMaster(masterName: string, regions: seq<Region>)
  {
    /** Whether this master has a region whose user-visible name is `name`. */
    predicate RegionNameExists(name: string): (b: bool)
      ensures b <==> exists i :: 0 <= i < |regions| && regions[i].regionName == name
    {
      exists r | r in regions :: r.regionName == name
    }
  }

  /** A page-sequence master, abstracted to the master-names its
      sub-sequence specifiers refer to; it owns no geometry. */
  datatype PageSequenceMaster = PageSequenceMaster(masterReferences: seq<string>)

  /** The errors the layout-master-set raises (SAXParseExceptions in the
      source), with the data their messages carry. */
  datatype FoError =
    | DuplicateMasterName(masterName: string)
    | RegionNameConflict(regionName: string, classA: string, classB: string)
    | InvalidChild(nsUri: string, localName: string)
    | MissingChildElement(contentModel: string)

  /** A child element as the tree builder reports it: namespace and local name. */
  datatype ChildNode = ChildNode(nsUri: string, localName: string)

  const FO_URI: string := "http://www.w3.org/1999/XSL/Format"
  const CONTENT_MODEL: string := "(simple-page-master|page-sequence-master)+"

  /** The elements section 6.4.6 admits as children of fo:layout-master-set. */
  predicate IsMasterElement(nsUri: string, localName: string)
  {
    nsUri == FO_URI && (localName == "simple-page-master" || localName == "page-sequence-master")
  }

  /** The content model `(simple-page-master|page-sequence-master)+`. */
  predicate ContentModelHolds(children: seq<ChildNode>)
  {
    |children| > 0 && forall k :: 0 <= k < |children| ==> IsMasterElement(children[k].nsUri, children[k].localName)
  }

  /** Validation of one prospective child: anything but a simple-page-master
      or a page-sequence-master in the FO namespace is an invalid child. */
  function ValidateChildNode(nsUri: string, localName: string): (r: Outcome<FoError>)
    ensures r.Pass? <==> IsMasterElement(nsUri, localName)
    ensures r.Fail? ==> r.error == InvalidChild(nsUri, localName)
  {
    if nsUri == FO_URI then
      if localName != "simple-page-master" && localName != "page-sequence-master" then
        Fail(InvalidChild(nsUri, localName))
      else
        Pass
    else
      Fail(InvalidChild(nsUri, localName))
  }

  /** `r` is declared by some simple page master of `masters`. */
  ghost predicate Declares(masters: map<string, SimplePageMaster>, r: Region)
  {
    exists n :: n in masters && r in masters[n].regions
  }

  /** Section 7.25.7: a region-name used in several places (in one master or
      in several) always denotes the same region class. */
  ghost predicate RegionNamesConsistent(masters: map<string, SimplePageMaster>)
  {
    forall r1, r2 :: Declares(masters, r1) && Declares(masters, r2) && r1.regionName == r2.regionName
      ==> r1.defaultRegionName == r2.defaultRegionName
  }

  /** `classOf` sends every declared region-name to the class of that region. */
  ghost predicate IsClassMap(masters: map<string, SimplePageMaster>, classOf: map<string, string>)
  {
    forall r :: Declares(masters, r) ==> r.regionName in classOf && classOf[r.regionName] == r.defaultRegionName
  }

  /** The bookkeeping of the region-name check: every region `seen` so far
      is declared, `allRegions` sends its name to its class, and every entry
      of `allRegions` comes from a region seen. */
  ghost predicate Recorded(masters: map<string, SimplePageMaster>, seen: set<Region>, allRegions: map<string, string>)
  {
    && (forall x :: x in seen ==> Declares(masters, x))
    && (forall x :: x in seen ==> x.regionName in allRegions && allRegions[x.regionName] == x.defaultRegionName)
    && (forall nm :: nm in allRegions ==> Region(nm, allRegions[nm]) in seen)
  }

  /** The inner loop of the region-name check: records the regions of the
      master filed under `name` one by one, failing on the first whose
      region-name is already recorded with another class. */
  method RecordRegions(masters: map<string, SimplePageMaster>, name: string, allRegions: map<string, string>,
                       ghost seen: set<Region>)
    returns (r: Outcome<FoError>, allRegions': map<string, string>, ghost seen': set<Region>)
    requires name in masters && Recorded(masters, seen, allRegions)
    ensures r.Pass? ==> Recorded(masters, seen', allRegions') && seen <= seen'
    ensures r.Pass? ==> forall x :: x in masters[name].regions ==> x in seen'
    ensures r.Fail? ==> r.error.RegionNameConflict? && r.error.classA != r.error.classB
    ensures r.Fail? ==> Declares(masters, Region(r.error.regionName, r.error.classA))
    ensures r.Fail? ==> Declares(masters, Region(r.error.regionName, r.error.classB))
  {
    var regions := masters[name].regions;
    allRegions' := allRegions;
    seen' := seen;
    var j := 0;
    while j < |regions|
      invariant j <= |regions|
      invariant Recorded(masters, seen', allRegions') && seen <= seen'
      invariant forall k :: 0 <= k < j ==> regions[k] in seen'
    {
      var region := regions[j];
      assert Declares(masters, region) by {
        assert region in masters[name].regions;
      }
      if region.regionName in allRegions' {
        var defaultRegionName := allRegions'[region.regionName];
        if defaultRegionName != region.defaultRegionName {
          assert Region(region.regionName, defaultRegionName) in seen';
          return Fail(RegionNameConflict(region.regionName, defaultRegionName, region.defaultRegionName)), allRegions', seen';
        }
      }
      allRegions' := allRegions'[region.regionName := region.defaultRegionName];
      seen' := seen' + {region};
      j := j + 1;
    }
    r := Pass;
  }

  class LayoutMasterSet {
    var simplePageMasters: map<string, SimplePageMaster>
    var pageSequenceMasters: map<string, PageSequenceMaster>
    /** The children accepted so far, in document order. */
    var childNodes: seq<ChildNode>

    /** The registry's invariant: one namespace shared by both tables, each
        simple page master filed under its own master-name, and every child
        admitted by the content model. */
    ghost predicate Valid()
      reads this
    {
      && simplePageMasters.Keys !! pageSequenceMasters.Keys
      && (forall n :: n in simplePageMasters ==> simplePageMasters[n].masterName == n)
      && (forall k :: 0 <= k < |childNodes| ==> IsMasterElement(childNodes[k].nsUri, childNodes[k].localName))
    }

    /** The state after the property set-up of the source: both tables empty. */
    constructor ()
      ensures Valid()
      ensures simplePageMasters == map[] && pageSequenceMasters == map[] && childNodes == []
    {
      simplePageMasters := map[];
      pageSequenceMasters := map[];
      childNodes := [];
    }

    /** Whether `masterName` is taken in the shared namespace. */
    function ExistsName(masterName: string): (b: bool)
      reads this
      ensures b <==> GetSimplePageMaster(masterName).Some? || GetPageSequenceMaster(masterName).Some?
      ensures Valid() ==> !(GetSimplePageMaster(masterName).Some? && GetPageSequenceMaster(masterName).Some?)
    {
      if masterName in simplePageMasters || masterName in pageSequenceMasters then true else false
    }

    /** Exact-name lookup of a simple page master; None stands for null. */
    function GetSimplePageMaster(masterName: string): (r: Option<SimplePageMaster>)
      reads this
      ensures r.Some? <==> masterName in simplePageMasters
      ensures r.Some? ==> r.value == simplePageMasters[masterName]
      ensures Valid() && r.Some? ==> r.value.masterName == masterName && masterName !in pageSequenceMasters
    {
      if masterName in simplePageMasters then Some(simplePageMasters[masterName]) else None
    }

    /** Exact-name lookup of a page-sequence master; None stands for null. */
    function GetPageSequenceMaster(masterName: string): (r: Option<PageSequenceMaster>)
      reads this
      ensures r.Some? <==> masterName in pageSequenceMasters
      ensures r.Some? ==> r.value == pageSequenceMasters[masterName]
      ensures Valid() && r.Some? ==> masterName !in simplePageMasters
    {
      if masterName in pageSequenceMasters then Some(pageSequenceMasters[masterName]) else None
    }

    /** Registers a simple page master under its own master-name, unless the
        name is taken in either table. */
    method AddSimplePageMaster(spm: SimplePageMaster) returns (r: Outcome<FoError>)
      requires Valid()
      modifies this
      ensures Valid()
      ensures r.Fail? <==> old(ExistsName(spm.masterName))
      ensures r.Fail? ==> r.error == DuplicateMasterName(spm.masterName) && simplePageMasters == old(simplePageMasters)
      ensures r.Pass? ==> simplePageMasters == old(simplePageMasters)[spm.masterName := spm]
      ensures r.Pass? ==> GetSimplePageMaster(spm.masterName) == Some(spm)
      ensures pageSequenceMasters == old(pageSequenceMasters) && childNodes == old(childNodes)
    {
      var masterName := spm.masterName;
      if ExistsName(masterName) {
        return Fail(DuplicateMasterName(masterName));
      }
      simplePageMasters := simplePageMasters[masterName := spm];
      return Pass;
    }

    /** Registers a page-sequence master under `masterName`, unless the name
        is taken in either table. */
    method AddPageSequenceMaster(masterName: string, psm: PageSequenceMaster) returns (r: Outcome<FoError>)
      requires Valid()
      modifies this
      ensures Valid()
      ensures r.Fail? <==> old(ExistsName(masterName))
      ensures r.Fail? ==> r.error == DuplicateMasterName(masterName) && pageSequenceMasters == old(pageSequenceMasters)
      ensures r.Pass? ==> pageSequenceMasters == old(pageSequenceMasters)[masterName := psm]
      ensures r.Pass? ==> GetPageSequenceMaster(masterName) == Some(psm)
      ensures simplePageMasters == old(simplePageMasters) && childNodes == old(childNodes)
    {
      if ExistsName(masterName) {
        return Fail(DuplicateMasterName(masterName));
      }
      pageSequenceMasters := pageSequenceMasters[masterName := psm];
      return Pass;
    }

    /** The tree builder's handling of one child element: validate it, then
        append it to the children. */
    method AddChildNode(child: ChildNode) returns (r: Outcome<FoError>)
      requires Valid()
      modifies this
      ensures Valid()
      ensures r == ValidateChildNode(child.nsUri, child.localName)
      ensures childNodes == if r.Pass? then old(childNodes) + [child] else old(childNodes)
      ensures simplePageMasters == old(simplePageMasters) && pageSequenceMasters == old(pageSequenceMasters)
    {
      r := ValidateChildNode(child.nsUri, child.localName);
      if r.Pass? {
        childNodes := childNodes + [child];
      }
    }

    /** End of the element: it must have had at least one child. */
    method EndOfNode() returns (r: Outcome<FoError>)
      ensures r.Pass? <==> |childNodes| > 0
      ensures Valid() ==> (r.Pass? <==> ContentModelHolds(childNodes))
      ensures r.Fail? ==> r.error == MissingChildElement(CONTENT_MODEL)
    {
      if |childNodes| == 0 {
        return Fail(MissingChildElement(CONTENT_MODEL));
      }
      return Pass;
    }

    /** Section 7.25.7: walks the regions of every simple page master, in
        whatever order the table yields them, recording region-name to
        region class, and fails on the first region-name seen with a second
        class. */
    method CheckRegionNames() returns (r: Outcome<FoError>)
      ensures r.Pass? <==> RegionNamesConsistent(simplePageMasters)
      ensures r.Fail? ==> r.error.RegionNameConflict? && r.error.classA != r.error.classB
      ensures r.Fail? ==> Declares(simplePageMasters, Region(r.error.regionName, r.error.classA))
      ensures r.Fail? ==> Declares(simplePageMasters, Region(r.error.regionName, r.error.classB))
    {
      var allRegions: map<string, string> := map[];
      ghost var seen: set<Region> := {};
      var remaining := simplePageMasters.Keys;
      while remaining != {}
        invariant remaining <= simplePageMasters.Keys
        invariant Recorded(simplePageMasters, seen, allRegions)
        invariant forall n, x :: n in simplePageMasters && n !in remaining && x in simplePageMasters[n].regions ==> x in seen
      {
        var name :| name in remaining;
        r, allRegions, seen := RecordRegions(simplePageMasters, name, allRegions, seen);
        if r.Fail? {
          return;
        }
        remaining := remaining - {name};
      }
      forall r1, r2 | Declares(simplePageMasters, r1) && Declares(simplePageMasters, r2) && r1.regionName == r2.regionName
        ensures r1.defaultRegionName == r2.defaultRegionName
      {
        assert r1 in seen && r2 in seen;
      }
      return Pass;
    }

    /** Whether any registered simple page master has a region named
        `regionName`; stops at the first master that has one. */
    method RegionNameExists(regionName: string) returns (b: bool)
      ensures b <==> exists n :: n in simplePageMasters && simplePageMasters[n].RegionNameExists(regionName)
    {
      var remaining := simplePageMasters.Keys;
      while remaining != {}
        invariant remaining <= simplePageMasters.Keys
        invariant forall n :: n in simplePageMasters && n !in remaining ==> !simplePageMasters[n].RegionNameExists(regionName)
      {
        var name :| name in remaining;
        if simplePageMasters[name].RegionNameExists(regionName) {
          return true;
        }
        remaining := remaining - {name};
      }
      return false;
    }
  }

  /** A master declares a region with name `name` exactly when some
      declared region carries that name: the per-master test and the
      registry-wide view agree. */
  lemma RegionNameExistsIffDeclared(masters: map<string, SimplePageMaster>, name: string)
    ensures (exists n :: n in masters && masters[n].RegionNameExists(name))
        <==> (exists r :: Declares(masters, r) && r.regionName == name)
  {
    if exists n :: n in masters && masters[n].RegionNameExists(name) {
      var n :| n in masters && masters[n].RegionNameExists(name);
      var r :| r in masters[n].regions && r.regionName == name;
      assert Declares(masters, r);
    }
  }

  /** Section 7.25.7 read as "every region-name maps to a single region
      class": the masters pass the check exactly when one map from
      region-name to class agrees with every declared region. */
  lemma RegionNamesConsistentIffClassMap(masters: map<string, SimplePageMaster>)
    ensures RegionNamesConsistent(masters) <==> exists classOf :: IsClassMap(masters, classOf)
  {
    if RegionNamesConsistent(masters) {
      var names := set n, r | n in masters && r in masters[n].regions :: r.regionName;
      var classOf := map nm | nm in names :: ClassOf(masters, nm);
      forall r | Declares(masters, r)
        ensures r.regionName in classOf && classOf[r.regionName] == r.defaultRegionName
      {
        var n :| n in masters && r in masters[n].regions;
        assert r.regionName in names;
      }
      assert IsClassMap(masters, classOf);
    }
    if exists classOf :: IsClassMap(masters, classOf) {
      var classOf :| IsClassMap(masters, classOf);
      forall r1, r2 | Declares(masters, r1) && Declares(masters, r2) && r1.regionName == r2.regionName
        ensures r1.defaultRegionName == r2.defaultRegionName
      {
      }
    }
  }

  /** The class of some declared region named `name`. */
  ghost function ClassOf(masters: map<string, SimplePageMaster>, name: string): string
    requires exists n, r :: n in masters && r in masters[n].regions && r.regionName == name
  {
    var r :| Declares(masters, r) && r.regionName == name; r.defaultRegionName
  }

  /** Why the check runs once over the whole set: two masters can each be
      consistent on their own and still conflict once both are registered. */
  lemma ConflictOnlyVisibleAcrossMasters()
    ensures var a := SimplePageMaster("a", [Region("main", "xsl-region-body")]);
            var b := SimplePageMaster("b", [Region("main", "xsl-region-before")]);
            RegionNamesConsistent(map["a" := a]) && RegionNamesConsistent(map["b" := b])
            && !RegionNamesConsistent(map["a" := a, "b" := b])
  {
    var a := SimplePageMaster("a", [Region("main", "xsl-region-body")]);
    var b := SimplePageMaster("b", [Region("main", "xsl-region-before")]);
    OneRegionIsConsistent("a", a);
    OneRegionIsConsistent("b", b);
    var both := map["a" := a, "b" := b];
    assert Declares(both, Region("main", "xsl-region-body")) by { assert Region("main", "xsl-region-body") in both["a"].regions; }
    assert Declares(both, Region("main", "xsl-region-before")) by { assert Region("main", "xsl-region-before") in both["b"].regions; }
  }

  /** A set holding one master with one region is consistent. */
  lemma OneRegionIsConsistent(name: string, m: SimplePageMaster)
    requires |m.regions| == 1
    ensures RegionNamesConsistent(map[name := m])
  {
    var masters := map[name := m];
    forall r | Declares(masters, r)
      ensures r == m.regions[0]
    {
      var n :| n in masters && r in masters[n].regions;
    }
  }
}
