/** The catalog rows fetched by the main page, and `groupByHostname`, which
    folds the flat list of planet rows into one star system per host star
    (hwo-frontend/src/Pages/MainPage.js). */
module Catalog {
  import opened Common

  /** One exoplanet row of the catalog. Field comments give the catalog's
      column names. */
  datatype CatalogRow = CatalogRow(
    hostname: string,              // hostname
    semiMajorAxis: Option<real>,   // pl_orbsmax
    earthRadii: Option<real>,      // pl_rade
    radiusRatio: Option<real>,     // pl_ratror
    period: Option<real>,          // pl_orbper
    planetType: Option<string>,    // pl_type
    inclination: Option<real>,     // pl_orbincl
    temperature: Option<real>,     // st_teff
    starRadius: Option<real>,      // st_rad
    spectralType: Option<string>,  // st_spectype_cleaned
    x: Option<real>,               // cartesian_x
    y: Option<real>,               // cartesian_y
    z: Option<real>                // cartesian_z
  )

  /** `{ starData, exoplanets }`: the row that introduced the host, and every
      row of that host. */
  datatype StarSystem = StarSystem(starData: CatalogRow, exoplanets: seq<CatalogRow>)

  /** The accumulator object of the fold. For keys that are not array
      indices (no catalog host name is an array index), a JavaScript object
      remembers the order in which its keys were first assigned, and
      `Object.values` lists the entries in that order, so the keys are kept as
      a sequence beside the map. */
  datatype HostGroups = HostGroups(keys: seq<string>, entries: map<string, StarSystem>) {
    ghost predicate Valid() {
      && (forall i, j :: 0 <= i < j < |keys| ==> keys[i] != keys[j])
      && (forall h :: h in entries <==> h in keys)
    }

    /** `Object.values(acc)`: one system per key, in key order, and exactly
        the systems the object holds. */
    function Values(): (vs: seq<StarSystem>)
      requires Valid()
      ensures |vs| == |keys|
      ensures forall i :: 0 <= i < |keys| ==> vs[i] == entries[keys[i]]
      ensures forall s :: s in vs <==> s in entries.Values
    {
      var vs := seq(|keys|, i requires 0 <= i < |keys| => entries[keys[i]]);
      assert forall s :: s in vs <==> s in entries.Values by {
        forall s | s in entries.Values ensures s in vs {
          var h :| h in entries && entries[h] == s;
          var i :| 0 <= i < |keys| && keys[i] == h;
          assert vs[i] == s;
        }
      }
      vs
    }
  }

  /** The host names of `rows`, each once, in the order of first appearance. */
  ghost function Hosts(rows: seq<CatalogRow>): seq<string> {
    if rows == [] then []
    else
      var earlier := Hosts(rows[..|rows| - 1]);
      var h := rows[|rows| - 1].hostname;
      if h in earlier then earlier else earlier + [h]
  }

  /** The rows of host `h`, in input order. */
  ghost function RowsOf(rows: seq<CatalogRow>, h: string): seq<CatalogRow> {
    if rows == [] then []
    else
      var last := rows[|rows| - 1];
      RowsOf(rows[..|rows| - 1], h) + (if last.hostname == h then [last] else [])
  }

  /** The number of planets over the systems listed in `keys`. */
  function PlanetTotal(keys: seq<string>, entries: map<string, StarSystem>): nat
    requires forall h :: h in keys ==> h in entries
  {
    if keys == [] then 0
    else PlanetTotal(keys[..|keys| - 1], entries) + |entries[keys[|keys| - 1]].exoplanets|
  }

  /** Replacing one system changes the total by the difference in its planet
      count, when that system is listed, and not at all otherwise. */
  lemma {:induction false} PlanetTotalUpdate(keys: seq<string>, entries: map<string, StarSystem>, h: string, s: StarSystem)
    requires forall i, j :: 0 <= i < j < |keys| ==> keys[i] != keys[j]
    requires forall k :: k in keys ==> k in entries
    ensures PlanetTotal(keys, entries[h := s]) + (if h in keys then |entries[h].exoplanets| else 0)
         == PlanetTotal(keys, entries) + (if h in keys then |s.exoplanets| else 0)
  {
    if keys != [] {
      var init := keys[..|keys| - 1];
      var k := keys[|keys| - 1];
      assert forall k' :: k' in init ==> k' in keys;
      PlanetTotalUpdate(init, entries, h, s);
      assert h in keys <==> h in init || h == k;
      assert k == h ==> h !in init;
    }
  }

  /** What the accumulator holds once the rows of `prefix` have been folded
      in: one entry per host, in first-seen order, each holding that host's
      rows with the first of them as `starData`. */
  ghost predicate GroupsOf(prefix: seq<CatalogRow>, keys: seq<string>, groups: map<string, StarSystem>) {
    && (forall a, b :: 0 <= a < b < |keys| ==> keys[a] != keys[b])
    && (forall h :: h in groups <==> h in keys)
    && keys == Hosts(prefix)
    && (forall h :: h in groups ==> groups[h].exoplanets == RowsOf(prefix, h))
    && (forall h :: h in groups ==>
          |groups[h].exoplanets| > 0 && groups[h].starData == groups[h].exoplanets[0])
    && PlanetTotal(keys, groups) == |prefix|
  }

  lemma HostsSnoc(prefix: seq<CatalogRow>, row: CatalogRow)
    ensures Hosts(prefix + [row]) ==
            if row.hostname in Hosts(prefix) then Hosts(prefix) else Hosts(prefix) + [row.hostname]
  {
    assert (prefix + [row])[..|prefix|] == prefix;
  }

  lemma RowsOfSnoc(prefix: seq<CatalogRow>, row: CatalogRow, h: string)
    ensures RowsOf(prefix + [row], h) == RowsOf(prefix, h) + (if row.hostname == h then [row] else [])
  {
    assert (prefix + [row])[..|prefix|] == prefix;
  }

  /** One step of the fold keeps `GroupsOf`. */
  lemma GroupStep(prefix: seq<CatalogRow>, row: CatalogRow, keys: seq<string>, groups: map<string, StarSystem>,
                  keys': seq<string>, groups': map<string, StarSystem>)
    requires GroupsOf(prefix, keys, groups)
    requires keys' == if row.hostname in groups then keys else keys + [row.hostname]
    requires groups' == var created := if row.hostname in groups then groups else groups[row.hostname := StarSystem(row, [])];
                        created[row.hostname := created[row.hostname].(exoplanets := created[row.hostname].exoplanets + [row])]
    ensures GroupsOf(prefix + [row], keys', groups')
  {
    if row.hostname in groups {
      GroupStepKnownHost(prefix, row, keys, groups, groups');
    } else {
      var created := groups[row.hostname := StarSystem(row, [])];
      assert created[row.hostname].(exoplanets := created[row.hostname].exoplanets + [row]) == StarSystem(row, [row]);
      assert groups' == groups[row.hostname := StarSystem(row, [row])];
      GroupStepNewHost(prefix, row, keys, groups, keys', groups');
    }
  }

  lemma GroupStepKnownHost(prefix: seq<CatalogRow>, row: CatalogRow, keys: seq<string>, groups: map<string, StarSystem>,
                           groups': map<string, StarSystem>)
    requires GroupsOf(prefix, keys, groups)
    requires row.hostname in groups
    requires groups' == groups[row.hostname := groups[row.hostname].(exoplanets := groups[row.hostname].exoplanets + [row])]
    ensures GroupsOf(prefix + [row], keys, groups')
  {
    var h := row.hostname;
    HostsSnoc(prefix, row);
    assert Hosts(prefix + [row]) == keys;
    forall k | k in groups' ensures groups'[k].exoplanets == RowsOf(prefix + [row], k) {
      RowsOfSnoc(prefix, row, k);
    }
    assert forall k :: k in groups' <==> k in keys;
    PlanetTotalUpdate(keys, groups, h, groups'[h]);
    assert PlanetTotal(keys, groups') == |prefix| + 1;
  }

  lemma GroupStepNewHost(prefix: seq<CatalogRow>, row: CatalogRow, keys: seq<string>, groups: map<string, StarSystem>,
                         keys': seq<string>, groups': map<string, StarSystem>)
    requires GroupsOf(prefix, keys, groups)
    requires row.hostname !in groups
    requires keys' == keys + [row.hostname]
    requires groups' == groups[row.hostname := StarSystem(row, [row])]
    ensures GroupsOf(prefix + [row], keys', groups')
  {
    NewHostKeys(prefix, row, keys);
    NewHostLists(prefix, row, groups);
    PlanetTotalAppend(keys, groups, row.hostname, StarSystem(row, [row]));
  }

  /** A host's first row appends it to the keys, which stay distinct. */
  lemma NewHostKeys(prefix: seq<CatalogRow>, row: CatalogRow, keys: seq<string>)
    requires forall a, b :: 0 <= a < b < |keys| ==> keys[a] != keys[b]
    requires keys == Hosts(prefix)
    requires row.hostname !in keys
    ensures Hosts(prefix + [row]) == keys + [row.hostname]
    ensures forall a, b :: 0 <= a < b < |keys + [row.hostname]| ==> (keys + [row.hostname])[a] != (keys + [row.hostname])[b]
  {
    HostsSnoc(prefix, row);
  }

  /** A host's first row creates its list `[row]`; every other list already
      holds its host's rows and is left alone. */
  lemma NewHostLists(prefix: seq<CatalogRow>, row: CatalogRow, groups: map<string, StarSystem>)
    requires row.hostname !in Hosts(prefix)
    requires forall h :: h in groups ==> groups[h].exoplanets == RowsOf(prefix, h)
    requires forall h :: h in groups ==>
               |groups[h].exoplanets| > 0 && groups[h].starData == groups[h].exoplanets[0]
    ensures var groups' := groups[row.hostname := StarSystem(row, [row])];
            && (forall h :: h in groups' ==> groups'[h].exoplanets == RowsOf(prefix + [row], h))
            && (forall h :: h in groups' ==>
                  |groups'[h].exoplanets| > 0 && groups'[h].starData == groups'[h].exoplanets[0])
  {
    var groups' := groups[row.hostname := StarSystem(row, [row])];
    UnseenHostHasNoRows(prefix, row.hostname);
    forall h | h in groups' ensures groups'[h].exoplanets == RowsOf(prefix + [row], h) {
      RowsOfSnoc(prefix, row, h);
    }
  }

  /** A host not yet among `Hosts(prefix)` has no rows in `prefix`. */
  lemma UnseenHostHasNoRows(prefix: seq<CatalogRow>, h: string)
    requires h !in Hosts(prefix)
    ensures RowsOf(prefix, h) == []
  {
    forall j | 0 <= j < |prefix| ensures prefix[j].hostname != h {
      if prefix[j].hostname == h {
        HostsMembers(prefix, h, j);
      }
    }
    NoRowsBefore(prefix, h);
  }

  /** Adding a new key with its system adds that system's planets to the
      total. */
  lemma PlanetTotalAppend(keys: seq<string>, groups: map<string, StarSystem>, h: string, s: StarSystem)
    requires forall a, b :: 0 <= a < b < |keys| ==> keys[a] != keys[b]
    requires forall k :: k in keys ==> k in groups
    requires h !in keys
    ensures PlanetTotal(keys + [h], groups[h := s]) == PlanetTotal(keys, groups) + |s.exoplanets|
  {
    PlanetTotalUpdate(keys, groups, h, s);
    assert (keys + [h])[..|keys|] == keys;
  }

  /** `groupByHostname`: a `reduce` over the rows that creates the entry of a
      host on its first row (`starData` is that row) and pushes every row onto
      its host's `exoplanets`. */
  method GroupByHostname(rows: seq<CatalogRow>) returns (acc: HostGroups)
    ensures acc.Valid()
    ensures acc.keys == Hosts(rows)
    ensures forall h :: h in acc.entries <==> exists j :: 0 <= j < |rows| && rows[j].hostname == h
    ensures forall h :: h in acc.entries ==> acc.entries[h].exoplanets == RowsOf(rows, h)
    ensures forall h :: h in acc.entries ==>
              |acc.entries[h].exoplanets| > 0 && acc.entries[h].starData == acc.entries[h].exoplanets[0]
    ensures PlanetTotal(acc.keys, acc.entries) == |rows|
    ensures rows == [] ==> acc.keys == [] && acc.entries == map[]
  {
    var keys: seq<string> := [];
    var groups: map<string, StarSystem> := map[];
    var i := 0;
    while i < |rows|
      invariant 0 <= i <= |rows|
      invariant GroupsOf(rows[..i], keys, groups)
    {
      var row := rows[i];
      var h := row.hostname;
      ghost var keys0, groups0 := keys, groups;
      if h !in groups {
        groups := groups[h := StarSystem(row, [])];
        keys := keys + [h];
      }
      groups := groups[h := groups[h].(exoplanets := groups[h].exoplanets + [row])];
      GroupStep(rows[..i], row, keys0, groups0, keys, groups);
      PrefixSnoc(rows, i);
      i := i + 1;
    }
    assert rows[..i] == rows;
    acc := HostGroups(keys, groups);
    HostsExactly(rows);
  }

  lemma PrefixSnoc(rows: seq<CatalogRow>, i: nat)
    requires i < |rows|
    ensures rows[..i + 1] == rows[..i] + [rows[i]]
  {
  }

  /** A host is among `Hosts(rows)` exactly when some row has it. */
  lemma HostsExactly(rows: seq<CatalogRow>)
    ensures forall h :: h in Hosts(rows) <==> exists j :: 0 <= j < |rows| && rows[j].hostname == h
  {
    forall h ensures h in Hosts(rows) <==> exists j :: 0 <= j < |rows| && rows[j].hostname == h {
      if h in Hosts(rows) {
        var j := HostsWitness(rows, h);
      } else {
        forall j | 0 <= j < |rows| ensures rows[j].hostname != h {
          if rows[j].hostname == h {
            HostsMembers(rows, h, j);
          }
        }
      }
    }
  }

  /** Every row's host is among `Hosts`. */
  lemma {:induction false} HostsMembers(rows: seq<CatalogRow>, h: string, j: nat)
    requires j < |rows| && rows[j].hostname == h
    ensures h in Hosts(rows)
  {
    var init := rows[..|rows| - 1];
    if j < |rows| - 1 {
      HostsMembers(init, h, j);
    }
  }

  /** Every member of `Hosts` is the host of some row. */
  lemma {:induction false} HostsWitness(rows: seq<CatalogRow>, h: string) returns (j: nat)
    requires h in Hosts(rows)
    ensures j < |rows| && rows[j].hostname == h
  {
    var init := rows[..|rows| - 1];
    if h in Hosts(init) {
      j := HostsWitness(init, h);
    } else {
      j := |rows| - 1;
    }
  }

  /** A row of host `h` that no earlier row shares its host with is the first
      element of `RowsOf(rows, h)`: the system's `starData`. */
  lemma {:induction false} FirstRowIsStarData(rows: seq<CatalogRow>, i: nat)
    requires i < |rows|
    requires forall j :: 0 <= j < i ==> rows[j].hostname != rows[i].hostname
    ensures |RowsOf(rows, rows[i].hostname)| > 0
    ensures RowsOf(rows, rows[i].hostname)[0] == rows[i]
  {
    var h := rows[i].hostname;
    var init := rows[..|rows| - 1];
    if i == |rows| - 1 {
      NoRowsBefore(init, h);
    } else {
      FirstRowIsStarData(init, i);
    }
  }

  /** No row of `rows` belongs to `h`, so `RowsOf` is empty. */
  lemma {:induction false} NoRowsBefore(rows: seq<CatalogRow>, h: string)
    requires forall j :: 0 <= j < |rows| ==> rows[j].hostname != h
    ensures RowsOf(rows, h) == []
  {
    if rows != [] {
      NoRowsBefore(rows[..|rows| - 1], h);
    }
  }

  /** `RowsOf` keeps a row exactly when it is an input row of that host. */
  lemma {:induction false} RowsOfMembers(rows: seq<CatalogRow>, h: string, r: CatalogRow)
    ensures r in RowsOf(rows, h) <==> r in rows && r.hostname == h
  {
    if rows != [] {
      var init := rows[..|rows| - 1];
      RowsOfMembers(init, h, r);
      assert rows == init + [rows[|rows| - 1]];
    }
  }
}
