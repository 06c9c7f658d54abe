/** End-to-end properties of the whole pipeline on typical paths. */
module Scenarios {
  import opened Wrappers
  import opened Text
  import opened Labels
  import opened Identifiers
  import opened Queries
  import opened Names
  import opened Trail

  /** The segments of a path written as a slash and the given segments. */
  lemma SegmentsOfJoin(segs: seq<string>)
    requires |segs| >= 1
    requires forall k :: 0 <= k < |segs| ==> '/' !in segs[k]
    ensures Segments("/" + Join(segs, '/')) == segs
  {
    assert Tail("/" + Join(segs, '/')) == Join(segs, '/');
    SplitJoin(segs, '/');
  }

  lemma IdHasNoSlash(id: string)
    requires IsIdShaped(id)
    ensures '/' !in id && |id| == 36
  {
  }

  /** `/facility/<id>/patients` has the three segments one would expect. */
  lemma FacilityPathSegments(id: string)
    requires IsIdShaped(id)
    ensures Segments("/facility/" + id + "/patients") == ["facility", id, "patients"]
  {
    var segs := ["facility", id, "patients"];
    IdHasNoSlash(id);
    assert segs[1..] == [id] + ["patients"];
    JoinCons(id, ["patients"], '/');
    assert segs == ["facility"] + segs[1..];
    JoinCons("facility", segs[1..], '/');
    assert "/facility/" + id + "/patients" == "/" + Join(segs, '/');
    SegmentsOfJoin(segs);
  }

  /** A path whose segments are `facility`, an id and `patients` asks for
      exactly one name: the facility's. */
  lemma FacilityPathQueries(path: string, id: string)
    requires IsIdShaped(id)
    requires Segments(path) == ["facility", id, "patients"]
    ensures IdQueries(path) == [Query(id, Facility)]
  {
    var segs := ["facility", id, "patients"];
    assert !IsIdShaped("patients");
    var c := Classified(segs);
    assert c == [None, Some(Query(id, Facility)), None];
    assert Somes(c[..2]) == [Query(id, Facility)] by {
      assert c[..2][..1] == c[..1];
      assert Somes(c[..1]) == Somes(c[..0]) == [];
    }
  }

  lemma NamesOfOne(q: Query, lookup: Lookup)
    ensures NamesOf([q], lookup) == map[q.id := Resolve(q, lookup)]
  {
    assert [q][..0] == [];
  }

  /** A keyword segment without an override is named by the table. */
  lemma TableCrumbName(path: string, names: map<string, string>, i: nat)
    requires i < |Segments(path)|
    requires Segments(path)[i] in MenuTags
    ensures BuildCrumbs(path, map[], names)[i].name == MenuTags[Segments(path)[i]]
  {
    KeywordsArePlain(Segments(path)[i]);
  }

  lemma FacilityPathFirst(path: string, id: string, names: map<string, string>)
    requires path != [] && path[0] == '/'
    requires Segments(path) == ["facility", id, "patients"]
    ensures BuildCrumbs(path, map[], names)[0] == Crumb("Facilities", "/facility", "")
  {
    TableCrumbName(path, names, 0);
    assert PrefixUri(path, 0) == "/facility" by {
      PrefixUriRooted(path, 0);
      assert Segments(path)[..1] == ["facility"];
      assert Join(["facility"], '/') == "facility";
    }
    assert BuildCrumbs(path, map[], names)[0].uri == PrefixUri(path, 0);
  }

  lemma FacilityPathLast(path: string, id: string, names: map<string, string>)
    requires path != [] && path[0] == '/'
    requires Segments(path) == ["facility", id, "patients"]
    ensures BuildCrumbs(path, map[], names)[2] == Crumb("Patients", path, "")
  {
    TableCrumbName(path, names, 2);
    CrumbUri(path, map[], names, 2);
  }

  /** The two label crumbs of a path whose segments are `facility`, an id
      and `patients`, whatever the names. */
  lemma FacilityPathLabels(path: string, id: string, names: map<string, string>)
    requires path != [] && path[0] == '/'
    requires Segments(path) == ["facility", id, "patients"]
    ensures |BuildCrumbs(path, map[], names)| == 3
    ensures BuildCrumbs(path, map[], names)[0] == Crumb("Facilities", "/facility", "")
    ensures BuildCrumbs(path, map[], names)[2] == Crumb("Patients", path, "")
  {
    FacilityPathFirst(path, id, names);
    FacilityPathLast(path, id, names);
  }

  /** The id crumb of such a path, before and after the names arrive. */
  lemma FacilityPathIdCrumb(path: string, id: string, lookup: Lookup)
    requires IsIdShaped(id)
    requires Segments(path) == ["facility", id, "patients"]
    ensures BuildCrumbs(path, map[], map[])[1].name == LoadingText
    ensures BuildCrumbs(path, map[], NamesOf(IdQueries(path), lookup))[1].name
              == FetchedName(Facility, id, lookup(Facility, id))
  {
    FacilityPathQueries(path, id);
    NamesOfOne(Query(id, Facility), lookup);
  }

  /** A path with segments `facility`, an id and `patients` (such as
      `/facility/<id>/patients`, by FacilityPathSegments): the middle crumb
      shows the loading text until the names arrive, then the facility's
      name when the lookup finds a non-empty one, or the facility error text
      when the lookup fails; the label crumbs never change. */
  lemma FacilityPatients(path: string, id: string, lookup: Lookup)
    requires IsIdShaped(id)
    requires path != [] && path[0] == '/'
    requires Segments(path) == ["facility", id, "patients"]
    ensures var resolved := NamesOf(IdQueries(path), lookup);
            && IdQueries(path) == [Query(id, Facility)]
            && BuildCrumbs(path, map[], map[])[1].name == LoadingText
            && BuildCrumbs(path, map[], resolved)[1].name == FetchedName(Facility, id, lookup(Facility, id))
            && (lookup(Facility, id).Failed? ==> BuildCrumbs(path, map[], resolved)[1].name == "Error fetching facility")
            && (var outcome := lookup(Facility, id);
                outcome.Fetched? && outcome.data.Some? && outcome.data.value.name.Some? && outcome.data.value.name.value != "" ==>
                  BuildCrumbs(path, map[], resolved)[1].name == outcome.data.value.name.value)
            && BuildCrumbs(path, map[], resolved)[0] == BuildCrumbs(path, map[], map[])[0] == Crumb("Facilities", "/facility", "")
            && BuildCrumbs(path, map[], resolved)[2] == BuildCrumbs(path, map[], map[])[2] == Crumb("Patients", path, "")
  {
    FacilityPathQueries(path, id);
    FacilityPathIdCrumb(path, id, lookup);
    FacilityPathLabels(path, id, map[]);
    FacilityPathLabels(path, id, NamesOf(IdQueries(path), lookup));
  }

  /** A facility lookup that answers with the name "General Hospital":
      once the names arrive, the middle crumb of `/facility/<id>/patients`
      reads "General Hospital". */
  lemma FacilityNameShown(path: string, id: string, lookup: Lookup)
    requires IsIdShaped(id)
    requires path != [] && path[0] == '/'
    requires Segments(path) == ["facility", id, "patients"]
    requires lookup(Facility, id) == Fetched(Some(EntityData(Some("General Hospital"), None)))
    ensures BuildCrumbs(path, map[], NamesOf(IdQueries(path), lookup))[1].name == "General Hospital"
  {
    FacilityPathIdCrumb(path, id, lookup);
  }

  /** No keyword of the table contains a slash or is id-shaped. */
  lemma KeywordsArePlain(key: string)
    requires key in MenuTags
    ensures '/' !in key && !IsIdShaped(key)
  {
    assert |key| != 36;
  }

  /** `/<keyword>` has the keyword as its one segment. */
  lemma KeywordSegments(key: string)
    requires key in MenuTags
    ensures Segments("/" + key) == [key]
  {
    KeywordsArePlain(key);
    assert "/" + key == "/" + Join([key], '/');
    SegmentsOfJoin([key]);
  }

  lemma KeywordQueries(key: string)
    requires key in MenuTags
    ensures IdQueries("/" + key) == []
  {
    KeywordSegments(key);
    var c := Classified([key]);
    assert c == [None];
    assert Somes(c) == Somes(c[..0]) == [];
  }

  lemma KeywordLink(key: string)
    requires key in MenuTags
    ensures PrefixUri("/" + key, 0) == "/" + key
  {
    KeywordSegments(key);
    PrefixUriRooted("/" + key, 0);
  }

  lemma KeywordCrumb(key: string, names: map<string, string>)
    requires key in MenuTags
    ensures BuildCrumbs("/" + key, map[], names) == [Crumb(MenuTags[key], "/" + key, "")]
  {
    KeywordSegments(key);
    KeywordLink(key);
    TableCrumbName("/" + key, names, 0);
  }

  lemma KeywordRenamed(key: string, rename: string, names: map<string, string>)
    requires key in MenuTags
    requires rename != ""
    ensures BuildCrumbs("/" + key, map[key := Replacement(Some(rename), None, None)], names) == [Crumb(rename, "/" + key, "")]
  {
    KeywordSegments(key);
    KeywordLink(key);
    NameOverrideWins("/" + key, map[key := Replacement(Some(rename), None, None)], names, 0);
  }

  /** A path naming one keyword, such as `/notice_board`: one crumb labelled
      from the table and linking to the path, nothing to look up; a
      non-empty override name renames it and changes nothing else. */
  lemma KeywordPath(key: string, rename: string, names: map<string, string>)
    requires key in MenuTags
    requires rename != ""
    ensures var path := "/" + key;
            && IdQueries(path) == []
            && BuildCrumbs(path, map[], names) == [Crumb(MenuTags[key], path, "")]
            && BuildCrumbs(path, map[key := Replacement(Some(rename), None, None)], names) == [Crumb(rename, path, "")]
  {
    KeywordQueries(key);
    KeywordCrumb(key, names);
    KeywordRenamed(key, rename, names);
  }
}
