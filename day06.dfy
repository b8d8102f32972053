/**
 * Day 6: the universal orbit map.  Each line "A)B" says that B orbits A.
 * Solve builds one space object per name in a dictionary and links every
 * satellite to its body; part 1 adds up the levels (the number of direct and
 * indirect orbits) of all objects, part 2 counts the orbital transfers from
 * the object YOU orbits to the object SAN orbits.
 *
 * The dictionary and the objects' `Parent` and `_satellites` fields are one
 * class, `SpaceObjects`, keyed by name, whose methods are specified by the
 * pure table `OrbitTable`.  `Level` and `Path` recurse up the parent links
 * with a step budget; a cycle, which overflows the stack in the program,
 * is `Err(Cycle)`.
 */
module Day06 {
  import opened Basics
  import opened Text

  datatype Orbit = Orbit(body: string, satellite: string)

  /** Why Solve throws. */
  datatype OrbitError =
    | MissingSatellite(line: nat)   // `objectIds[1]` of a line without ')'
    | Cycle(name: string)           // `Level` or `Path` never reaches a root
    | MissingObject(name: string)   // `spaceObjects["YOU"]` or `["SAN"]`
    | NoCommonBody                  // `Intersect(...).First()` on nothing
    | ChecksumOverflow              // the checked `Sum`

  const SEPARATOR := ')'

  // ----- input --------------------------------------------------------------------------

  /** GetOrbits on one line: the first two fields of `Split(')')`, further
      fields ignored. */
  function ParseOrbit(line: string): (r: Option<Orbit>)
    ensures r.None? <==> SEPARATOR !in line
    ensures r.Some? ==> (SEPARATOR !in r.value.body && SEPARATOR !in r.value.satellite &&
      StartsWith(line, r.value.body + [SEPARATOR] + r.value.satellite))
  {
    var ids := Split(line, SEPARATOR);
    JoinSplit(line, SEPARATOR);
    SplitFieldsFree(line, SEPARATOR, "");
    assert ids[0] in ids;
    if |ids| < 2 then
      None
    else
      assert ids[1] in ids;
      assert Join(ids[1..], SEPARATOR)[..|ids[1]|] == ids[1] by {
        assert ids[1..][0] == ids[1];
      }
      Some(Orbit(ids[0], ids[1]))
  }

  /** `GetOrbits().ToList()`: every line is split before any object is made,
      and the first line without ')' throws. */
  function ParseOrbits(lines: seq<string>): (r: Result<seq<Orbit>, OrbitError>)
    ensures r.Ok? ==> (|r.value| == |lines| &&
      forall i :: 0 <= i < |lines| ==> ParseOrbit(lines[i]) == Some(r.value[i]))
    ensures r.Err? ==> (r.error.MissingSatellite? && r.error.line < |lines| &&
      SEPARATOR !in lines[r.error.line] &&
      forall i :: 0 <= i < r.error.line ==> ParseOrbit(lines[i]).Some?)
  {
    if lines == [] then Ok([])
    else
      var init :- ParseOrbits(lines[..|lines| - 1]);
      match ParseOrbit(Last(lines))
      case None => Err(MissingSatellite(|lines| - 1))
      case Some(orbit) => Ok(init + [orbit])
  }

  // ----- the object table ---------------------------------------------------------------

  /** The dictionary's keys in insertion order, each object's `Parent` (absent
      for an object nobody has adopted) and each object's `_satellites`. */
  datatype OrbitTable = OrbitTable(
    names: seq<string>,
    parent: map<string, string>,
    satellites: map<string, seq<string>>)

  const EMPTY := OrbitTable([], map[], map[])

  /** The names of a table. */
  function Objects(t: OrbitTable): set<string>
  {
    set n | n in t.names
  }

  /** One object per name, every parent one of them. */
  predicate WellFormed(t: OrbitTable)
  {
    (forall i, j :: 0 <= i < j < |t.names| ==> t.names[i] != t.names[j]) &&
    t.satellites.Keys == Objects(t) &&
    (forall n :: n in t.parent ==> n in t.satellites && t.parent[n] in t.satellites)
  }

  /** `TryGetValue`, and `new SpaceObject(id)` plus `Add` when it fails. */
  function Register(t: OrbitTable, id: string): (r: OrbitTable)
  {
    if id in t.satellites then t
    else OrbitTable(t.names + [id], t.parent, t.satellites[id := []])
  }

  /** `body.AddSatellite(satellite)`: the satellite is appended to the body's
      list and its parent is overwritten. */
  function Attach(t: OrbitTable, body: string, satellite: string): (r: OrbitTable)
    requires body in t.satellites
  {
    t.(satellites := t.satellites[body := t.satellites[body] + [satellite]],
       parent := t.parent[satellite := body])
  }

  /** One iteration of Solve's foreach loop. */
  function AddOrbit(t: OrbitTable, orbit: Orbit): (r: OrbitTable)
  {
    var withBody := Register(t, orbit.body);
    var withBoth := Register(withBody, orbit.satellite);
    Attach(withBoth, orbit.body, orbit.satellite)
  }

  /** The table after the loop has seen every orbit. */
  function Table(orbits: seq<Orbit>): OrbitTable
  {
    if orbits == [] then EMPTY else AddOrbit(Table(orbits[..|orbits| - 1]), Last(orbits))
  }

  /** Every name the orbits mention. */
  function Mentioned(orbits: seq<Orbit>): set<string>
  {
    if orbits == [] then {} else Mentioned(orbits[..|orbits| - 1]) + {Last(orbits).body, Last(orbits).satellite}
  }

  /** The body recorded by the last line that names `satellite` as satellite. */
  function LastBody(orbits: seq<Orbit>, satellite: string): Option<string>
  {
    if orbits == [] then None
    else if Last(orbits).satellite == satellite then Some(Last(orbits).body)
    else LastBody(orbits[..|orbits| - 1], satellite)
  }

  /** The satellites of `body`, in the order of the lines. */
  function SatellitesOf(orbits: seq<Orbit>, body: string): seq<string>
  {
    if orbits == [] then []
    else SatellitesOf(orbits[..|orbits| - 1], body) + (if Last(orbits).body == body then [Last(orbits).satellite] else [])
  }

  /** Registering a name keeps one object per name. */
  lemma RegisterWellFormed(t: OrbitTable, id: string)
    requires WellFormed(t)
    ensures WellFormed(Register(t, id)) && Objects(Register(t, id)) == Objects(t) + {id}
  {
    if id !in t.satellites {
      var r := Register(t, id);
      assert Objects(r) == Objects(t) + {id};
    }
  }

  /** Each loop iteration keeps one object per name. */
  lemma AddOrbitWellFormed(t: OrbitTable, orbit: Orbit)
    requires WellFormed(t)
    ensures WellFormed(AddOrbit(t, orbit))
    ensures Objects(AddOrbit(t, orbit)) == Objects(t) + {orbit.body, orbit.satellite}
  {
    var withBody := Register(t, orbit.body);
    RegisterWellFormed(t, orbit.body);
    var withBoth := Register(withBody, orbit.satellite);
    RegisterWellFormed(withBody, orbit.satellite);
    AttachWellFormed(withBoth, orbit.body, orbit.satellite);
  }

  /** Linking two registered objects keeps one object per name. */
  lemma AttachWellFormed(t: OrbitTable, body: string, satellite: string)
    requires WellFormed(t) && body in t.satellites && satellite in t.satellites
    ensures WellFormed(Attach(t, body, satellite)) && Objects(Attach(t, body, satellite)) == Objects(t)
  {
    var r := Attach(t, body, satellite);
    assert r.names == t.names;
    assert r.satellites.Keys == t.satellites.Keys;
    forall n | n in r.parent ensures n in r.satellites && r.parent[n] in r.satellites {
      if n != satellite {
        assert r.parent[n] == t.parent[n];
      }
    }
  }

  /** The table holds exactly one object for each name the lines mention. */
  lemma {:induction false} TableObjects(orbits: seq<Orbit>)
    ensures WellFormed(Table(orbits)) && Objects(Table(orbits)) == Mentioned(orbits)
  {
    if orbits != [] {
      TableObjects(orbits[..|orbits| - 1]);
      AddOrbitWellFormed(Table(orbits[..|orbits| - 1]), Last(orbits));
    }
  }

  /** An object's parent is the body of the last line that names it as a
      satellite, and it has none when no line does. */
  lemma {:induction false} TableParents(orbits: seq<Orbit>)
    ensures var t := Table(orbits);
      (forall n :: (n in t.parent) == LastBody(orbits, n).Some?) &&
      (forall n :: n in t.parent ==> t.parent[n] == LastBody(orbits, n).value)
  {
    if orbits != [] {
      var init := orbits[..|orbits| - 1];
      TableParents(init);
      assert Table(orbits).parent == Table(init).parent[Last(orbits).satellite := Last(orbits).body];
    }
  }

  /** An object's satellites are those of the lines that name it as body,
      in the order of the lines. */
  lemma {:induction false} TableSatellites(orbits: seq<Orbit>)
    ensures var t := Table(orbits);
      forall n :: n in t.satellites ==> t.satellites[n] == SatellitesOf(orbits, n)
  {
    if orbits != [] {
      var init := orbits[..|orbits| - 1];
      var orbit := Last(orbits);
      TableSatellites(init);
      TableObjects(init);
      var before := Table(init);
      var t := Table(orbits);
      forall n | n in t.satellites
        ensures t.satellites[n] == SatellitesOf(orbits, n)
      {
        var previous := if n in before.satellites then before.satellites[n] else [];
        assert t.satellites[n] == previous + (if n == orbit.body then [orbit.satellite] else []);
        if n !in before.satellites {
          NeverBody(init, n);
        }
      }
    }
  }

  /** A name the lines never mention has no satellites. */
  lemma {:induction false} NeverBody(orbits: seq<Orbit>, n: string)
    requires n !in Mentioned(orbits)
    ensures SatellitesOf(orbits, n) == []
  {
    if orbits != [] {
      NeverBody(orbits[..|orbits| - 1], n);
    }
  }

  /** Part 1's dictionary with its objects: insertion-ordered names, each
      object's parent and each object's satellites. */
  class SpaceObjects {
    var names: seq<string>
    var parent: map<string, string>
    var satellites: map<string, seq<string>>

    function State(): OrbitTable
      reads this
    {
      OrbitTable(names, parent, satellites)
    }

    constructor()
      ensures State() == EMPTY
    {
      names := [];
      parent := map[];
      satellites := map[];
    }

    /** `TryGetValue`, and on a miss `new SpaceObject(id)` and `Add`. */
    method GetOrAdd(id: string)
      modifies this
      ensures State() == Register(old(State()), id)
      ensures id in satellites
    {
      if id !in satellites {
        names := names + [id];
        satellites := satellites[id := []];
      }
    }

    /** SpaceObject.AddSatellite: `_satellites.Add(satellite)` on the body
        and `satellite.Parent = this`. */
    method AddSatellite(body: string, satellite: string)
      requires body in satellites
      modifies this
      ensures State() == Attach(old(State()), body, satellite)
    {
      satellites := satellites[body := satellites[body] + [satellite]];
      parent := parent[satellite := body];
    }
  }

  /** Solve's foreach loop over the orbits. */
  method BuildObjects(orbits: seq<Orbit>) returns (objects: SpaceObjects)
    ensures fresh(objects)
    ensures objects.State() == Table(orbits)
  {
    objects := new SpaceObjects();
    var i := 0;
    while i < |orbits|
      invariant 0 <= i <= |orbits|
      invariant objects.State() == Table(orbits[..i])
    {
      assert orbits[..i + 1][..i] == orbits[..i];
      objects.GetOrAdd(orbits[i].body);
      objects.GetOrAdd(orbits[i].satellite);
      objects.AddSatellite(orbits[i].body, orbits[i].satellite);
      i := i + 1;
    }
    assert orbits[..|orbits|] == orbits;
  }

  // ----- levels and paths ---------------------------------------------------------------

  /** `p` climbs the parent links from its first object to a root. */
  predicate Chain(t: OrbitTable, p: seq<string>)
  {
    p != [] && (forall k :: 0 <= k < |p| - 1 ==> Link(t, p, k)) && Last(p) !in t.parent
  }

  /** The parent of the `k`-th object of `p` is the next one. */
  predicate Link(t: OrbitTable, p: seq<string>, k: nat)
    requires k + 1 < |p|
  {
    p[k] in t.parent && t.parent[p[k]] == p[k + 1]
  }

  /** An object whose parent starts a chain starts a longer one. */
  lemma ChainCons(t: OrbitTable, name: string, rest: seq<string>)
    requires name in t.parent && Chain(t, rest) && rest[0] == t.parent[name]
    ensures Chain(t, [name] + rest)
  {
    var p := [name] + rest;
    forall k | 0 <= k < |p| - 1 ensures Link(t, p, k) {
      if k > 0 {
        assert Link(t, rest, k - 1);
      }
    }
  }

  /** SpaceObject.Level, `Parent?.Level + 1 ?? 0`, climbing at most `fuel`
      links. */
  function Level(t: OrbitTable, name: string, fuel: nat): (r: Result<nat, OrbitError>)
    ensures r.Ok? && name !in t.parent ==> r.value == 0
    decreases fuel
  {
    if name !in t.parent then Ok(0)
    else if fuel == 0 then Err(Cycle(name))
    else
      var level :- Level(t, t.parent[name], fuel - 1);
      Ok(level + 1)
  }

  /** SpaceObject.Path: the object's name followed by its parent's path. */
  function Path(t: OrbitTable, name: string, fuel: nat): (r: Result<seq<string>, OrbitError>)
    ensures r.Ok? ==> (Chain(t, r.value) && r.value[0] == name && |r.value| <= fuel + 1)
    decreases fuel
  {
    if name !in t.parent then Ok([name])
    else if fuel == 0 then Err(Cycle(name))
    else
      var rest :- Path(t, t.parent[name], fuel - 1);
      ChainCons(t, name, rest);
      Ok([name] + rest)
  }

  /** The path is one longer than the level: they climb the same links. */
  lemma {:induction false} LevelIsPathLength(t: OrbitTable, name: string, fuel: nat)
    ensures Level(t, name, fuel).Ok? <==> Path(t, name, fuel).Ok?
    ensures Level(t, name, fuel).Ok? ==> Level(t, name, fuel).value == |Path(t, name, fuel).value| - 1
    decreases fuel
  {
    if name in t.parent && fuel > 0 {
      LevelIsPathLength(t, t.parent[name], fuel - 1);
    }
  }

  /** Along a chain each object's parent is the next one, so an object seen
      twice would make the chain repeat and never end. */
  lemma {:induction false} ChainShift(t: OrbitTable, p: seq<string>, d: nat, i: nat)
    requires Chain(t, p) && 0 < d && i + d < |p| && p[0] == p[d]
    ensures p[i] == p[i + d]
    decreases i
  {
    if i > 0 {
      ChainShift(t, p, d, i - 1);
      assert Link(t, p, i - 1) && Link(t, p, i - 1 + d);
    }
  }

  /** A chain never revisits its first object. */
  lemma ChainStartsOnce(t: OrbitTable, p: seq<string>, d: nat)
    requires Chain(t, p) && 0 < d < |p|
    ensures p[0] != p[d]
  {
    if p[0] == p[d] {
      assert Link(t, p, |p| - 1 - d);
      ChainShift(t, p, d, |p| - 1 - d);
    }
  }

  /** The objects of a path are all different. */
  lemma {:induction false} PathDistinct(t: OrbitTable, name: string, fuel: nat)
    requires Path(t, name, fuel).Ok?
    ensures var p := Path(t, name, fuel).value;
      forall i, j :: 0 <= i < j < |p| ==> p[i] != p[j]
    decreases fuel
  {
    if name in t.parent {
      var p := Path(t, name, fuel).value;
      var rest := Path(t, t.parent[name], fuel - 1).value;
      PathDistinct(t, t.parent[name], fuel - 1);
      assert p == [name] + rest;
      forall j | 0 < j < |p| ensures p[0] != p[j] {
        ChainStartsOnce(t, p, j);
      }
    }
  }

  /** Every object of a path is in the table. */
  lemma {:induction false} PathObjects(t: OrbitTable, name: string, fuel: nat)
    requires WellFormed(t) && name in t.satellites && Path(t, name, fuel).Ok?
    ensures forall n :: n in Path(t, name, fuel).value ==> n in t.satellites
    decreases fuel
  {
    if name in t.parent {
      PathObjects(t, t.parent[name], fuel - 1);
    }
  }

  /** A path found with some budget is found with any budget that covers
      its links. */
  lemma {:induction false} FuelEnough(t: OrbitTable, name: string, fuel: nat, more: nat)
    requires Path(t, name, fuel).Ok? && more >= |Path(t, name, fuel).value| - 1
    ensures Path(t, name, more) == Path(t, name, fuel)
    decreases fuel
  {
    if name in t.parent {
      FuelEnough(t, t.parent[name], fuel - 1, more - 1);
    }
  }

  /** A sequence of different elements has as many elements as its set. */
  lemma {:induction false} DistinctCard(p: seq<string>)
    requires forall i, j :: 0 <= i < j < |p| ==> p[i] != p[j]
    ensures |set n | n in p| == |p|
  {
    if p != [] {
      var rest := p[1..];
      DistinctCard(rest);
      assert (set n | n in p) == {p[0]} + (set n | n in rest);
      assert p[0] !in (set n | n in rest);
    }
  }

  /** A subset of a finite set is no larger. */
  lemma {:induction false} SubsetCard(a: set<string>, b: set<string>)
    requires a <= b
    ensures |a| <= |b|
    decreases |a|
  {
    if a != {} {
      var x :| x in a;
      SubsetCard(a - {x}, b - {x});
    }
  }

  /** The set of a sequence is no larger than the sequence. */
  lemma {:induction false} SeqSetCard(s: seq<string>)
    ensures |set n | n in s| <= |s|
  {
    if s != [] {
      SeqSetCard(s[1..]);
      assert (set n | n in s) == {s[0]} + (set n | n in s[1..]);
    }
  }

  /** A path holds at most every object once. */
  lemma PathShort(t: OrbitTable, name: string, fuel: nat)
    requires WellFormed(t) && name in t.satellites && Path(t, name, fuel).Ok?
    ensures |Path(t, name, fuel).value| <= |t.names|
  {
    var p := Path(t, name, fuel).value;
    PathDistinct(t, name, fuel);
    PathObjects(t, name, fuel);
    DistinctCard(p);
    SubsetCard((set n | n in p), Objects(t));
    SeqSetCard(t.names);
  }

  /** The budget of one link per object loses nothing: when it runs out the
      parent links from `name` really go round for ever. */
  lemma CycleIsForever(t: OrbitTable, name: string, fuel: nat)
    requires WellFormed(t) && name in t.satellites
    requires Path(t, name, |t.names|).Err?
    ensures Path(t, name, fuel).Err?
  {
    if Path(t, name, fuel).Ok? {
      PathShort(t, name, fuel);
      FuelEnough(t, name, fuel, |t.names|);
    }
  }

  /** The tail of a path from its `k`-th object is that object's path. */
  lemma {:induction false} PathSuffix(t: OrbitTable, name: string, fuel: nat, k: nat)
    requires Path(t, name, fuel).Ok? && k < |Path(t, name, fuel).value|
    ensures k <= fuel
    ensures var p := Path(t, name, fuel).value;
      Path(t, p[k], fuel - k).Ok? && Path(t, p[k], fuel - k).value == p[k..]
    decreases k
  {
    if k > 0 {
      var p := Path(t, name, fuel).value;
      assert name in t.parent && fuel > 0;
      var rest := Path(t, t.parent[name], fuel - 1);
      assert rest.Ok? && p == [name] + rest.value;
      PathSuffix(t, t.parent[name], fuel - 1, k - 1);
      assert p[k] == rest.value[k - 1] && p[k..] == rest.value[k - 1..];
    }
  }

  // ----- part 1 -------------------------------------------------------------------------

  /** An object's level with the budget of one link per object. */
  function LevelOf(t: OrbitTable, name: string): Result<nat, OrbitError>
  {
    Level(t, name, |t.names|)
  }

  /** `spaceObjects.Values.Sum(x => x.Level)` over `names`, left to right:
      each level is found and then added to the checked total. */
  function Checksum(t: OrbitTable, names: seq<string>): Result<int, OrbitError>
  {
    if names == [] then Ok(0)
    else
      var total :- Checksum(t, names[..|names| - 1]);
      var level :- LevelOf(t, Last(names));
      var sum := total + level;
      if InInt32(sum) then Ok(sum) else Err(ChecksumOverflow)
  }

  /** Every object of `names` reaches a root. */
  predicate Rooted(t: OrbitTable, names: seq<string>)
  {
    forall i :: 0 <= i < |names| ==> LevelOf(t, names[i]).Ok?
  }

  /** The levels of `names`, where they exist. */
  function Levels(t: OrbitTable, names: seq<string>): (r: seq<int>)
    ensures |r| == |names|
    ensures forall i :: 0 <= i < |names| ==> 0 <= r[i]
    ensures forall i :: 0 <= i < |names| && LevelOf(t, names[i]).Ok? ==> r[i] == LevelOf(t, names[i]).value
  {
    seq(|names|, i requires 0 <= i < |names| => match LevelOf(t, names[i]) case Ok(l) => l case Err(_) => 0)
  }

  /** The checksum is the checked sum of the levels; a cycle or an overflow
      throws. */
  lemma {:induction false} ChecksumIsSum(t: OrbitTable, names: seq<string>)
    ensures match Checksum(t, names)
      case Ok(v) => Rooted(t, names) && CheckedSum32(Levels(t, names)) == Some(v)
      case Err(ChecksumOverflow) => Rooted(t, names) ==> CheckedSum32(Levels(t, names)).None?
      case Err(_) => !Rooted(t, names)
    decreases |names|
  {
    if names != [] {
      var init := names[..|names| - 1];
      ChecksumIsSum(t, init);
      var levels := Levels(t, names);
      assert levels[..|levels| - 1] == Levels(t, init);
      CheckedSumStep(levels, CheckedSum32(Levels(t, init)));
      RootedStep(t, names);
    }
  }

  /** All of `names` reach a root when all but the last do and the last does. */
  lemma RootedStep(t: OrbitTable, names: seq<string>)
    requires names != []
    ensures Rooted(t, names) <==> Rooted(t, names[..|names| - 1]) && LevelOf(t, Last(names)).Ok?
  {
    var init := names[..|names| - 1];
    assert forall i :: 0 <= i < |init| ==> init[i] == names[i];
  }

  /** Part 1 over the whole table: levels are never negative, so Solve
      succeeds exactly when every object reaches a root and the total fits. */
  lemma Part1Checksum(t: OrbitTable)
    ensures Checksum(t, t.names).Ok? <==> Rooted(t, t.names) && Sum(Levels(t, t.names)) <= INT32_MAX
    ensures Checksum(t, t.names).Ok? ==> Checksum(t, t.names).value == Sum(Levels(t, t.names))
  {
    ChecksumIsSum(t, t.names);
    CheckedSumNonNegative(Levels(t, t.names));
  }

  /** Solve of part 1 on the lines of the input file. */
  function Solve1(lines: seq<string>): (r: Result<int, OrbitError>)
    ensures ParseOrbits(lines).Err? ==> r == Err(ParseOrbits(lines).error)
    ensures ParseOrbits(lines).Ok? ==> var t := Table(ParseOrbits(lines).value);
      (r.Ok? <==> Rooted(t, t.names) && Sum(Levels(t, t.names)) <= INT32_MAX) &&
      (r.Ok? ==> r.value == Sum(Levels(t, t.names)))
  {
    var orbits :- ParseOrbits(lines);
    var t := Table(orbits);
    Part1Checksum(t);
    Checksum(t, t.names)
  }

  // ----- part 2 -------------------------------------------------------------------------

  const YOU := "YOU"
  const SANTA := "SAN"

  function IndexOf(s: seq<string>, x: string): (r: nat)
    requires x in s
    ensures r < |s| && s[r] == x && forall k :: 0 <= k < r ==> s[k] != x
  {
    if s[0] == x then 0 else IndexOf(s[1..], x) + 1
  }

  /** `mine.Intersect(theirs).First()`: the first of `mine` that `theirs` holds. */
  function FirstCommon(mine: seq<string>, theirs: seq<string>): (r: Result<string, OrbitError>)
    ensures r.Err? <==> forall n :: n in mine ==> n !in theirs
    ensures r.Err? ==> r.error == NoCommonBody
    ensures r.Ok? ==> (r.value in mine && r.value in theirs &&
      forall k :: 0 <= k < IndexOf(mine, r.value) ==> mine[k] !in theirs)
  {
    if mine == [] then Err(NoCommonBody)
    else if mine[0] in theirs then Ok(mine[0])
    else
      FirstCommon(mine[1..], theirs)
  }

  /** The transfers between two paths through their first common body. */
  function Transfers(mine: seq<string>, theirs: seq<string>): Result<int, OrbitError>
  {
    var common :- FirstCommon(mine, theirs);
    Ok((IndexOf(mine, common) - 1) + (IndexOf(theirs, common) - 1))
  }

  /** An object's path with the budget of one link per object. */
  function PathOf(t: OrbitTable, name: string): Result<seq<string>, OrbitError>
  {
    Path(t, name, |t.names|)
  }

  /** Solve of part 2 over a table: look up YOU and take its path, then the
      same for SAN, then count the transfers. */
  function TransfersIn(t: OrbitTable): Result<int, OrbitError>
  {
    if YOU !in t.satellites then Err(MissingObject(YOU))
    else
      var myPath :- PathOf(t, YOU);
      if SANTA !in t.satellites then Err(MissingObject(SANTA))
      else
        var santaPath :- PathOf(t, SANTA);
        Transfers(myPath, santaPath)
  }

  /** Solve of part 2 on the lines of the input file. */
  function Solve2(lines: seq<string>): (r: Result<int, OrbitError>)
    ensures ParseOrbits(lines).Err? ==> r == Err(ParseOrbits(lines).error)
    ensures r.Ok? ==> (ParseOrbits(lines).Ok? &&
      var t := Table(ParseOrbits(lines).value);
      PathOf(t, YOU).Ok? && PathOf(t, SANTA).Ok? &&
      var common := FirstCommon(PathOf(t, YOU).value, PathOf(t, SANTA).value);
      common.Ok? && LevelOf(t, YOU).Ok? && LevelOf(t, SANTA).Ok? && LevelOf(t, common.value).Ok? &&
      r.value == (LevelOf(t, YOU).value - LevelOf(t, common.value).value - 1) +
        (LevelOf(t, SANTA).value - LevelOf(t, common.value).value - 1))
  {
    var orbits :- ParseOrbits(lines);
    var t := Table(orbits);
    if YOU in t.satellites && SANTA in t.satellites && PathOf(t, YOU).Ok? && PathOf(t, SANTA).Ok? &&
      FirstCommon(PathOf(t, YOU).value, PathOf(t, SANTA).value).Ok?
    then
      TableObjects(orbits);
      TransfersByLevels(t, FirstCommon(PathOf(t, YOU).value, PathOf(t, SANTA).value).value);
      TransfersIn(t)
    else TransfersIn(t)
  }

  /** When both objects exist and reach a root, the answer is the transfer
      count between their paths, and `First()` throws exactly when the paths
      share no body. */
  lemma TransfersInPaths(t: OrbitTable)
    requires YOU in t.satellites && SANTA in t.satellites
    requires PathOf(t, YOU).Ok? && PathOf(t, SANTA).Ok?
    ensures TransfersIn(t) == Transfers(PathOf(t, YOU).value, PathOf(t, SANTA).value)
    ensures TransfersIn(t) == Err(NoCommonBody) <==>
      forall n :: n in PathOf(t, YOU).value ==> n !in PathOf(t, SANTA).value
  {
  }

  /** The answer is the number of links from the body YOU orbits down to the
      first common body plus those from it up to the body SAN orbits:
      level(YOU) - level(common) - 1 plus level(SAN) - level(common) - 1. */
  lemma TransfersByLevels(t: OrbitTable, common: string)
    requires WellFormed(t) && YOU in t.satellites && SANTA in t.satellites
    requires PathOf(t, YOU).Ok? && PathOf(t, SANTA).Ok?
    requires FirstCommon(PathOf(t, YOU).value, PathOf(t, SANTA).value) == Ok(common)
    ensures LevelOf(t, YOU).Ok? && LevelOf(t, SANTA).Ok? && LevelOf(t, common).Ok?
    ensures var answer := Transfers(PathOf(t, YOU).value, PathOf(t, SANTA).value);
      answer.Ok? && answer.value ==
        (LevelOf(t, YOU).value - LevelOf(t, common).value - 1) + (LevelOf(t, SANTA).value - LevelOf(t, common).value - 1)
  {
    var mine, theirs := PathOf(t, YOU).value, PathOf(t, SANTA).value;
    var i: int, j: int := IndexOf(mine, common), IndexOf(theirs, common);
    TransfersValue(mine, theirs, common);
    LevelsAlongPath(t, YOU, i);
    LevelsAlongPath(t, SANTA, j);
    var mineLevel: int, santaLevel: int := LevelOf(t, YOU).value, LevelOf(t, SANTA).value;
    var commonLevel: int := LevelOf(t, common).value;
    assert (i - 1) + (j - 1) == (mineLevel - commonLevel - 1) + (santaLevel - commonLevel - 1);
  }

  /** The transfer count through a known first common body. */
  lemma TransfersValue(mine: seq<string>, theirs: seq<string>, common: string)
    requires FirstCommon(mine, theirs) == Ok(common)
    ensures Transfers(mine, theirs).Ok?
    ensures Transfers(mine, theirs).value == (IndexOf(mine, common) - 1) + (IndexOf(theirs, common) - 1)
  {
  }

  /** Climbing `k` links lowers the level by `k`. */
  lemma LevelsAlongPath(t: OrbitTable, name: string, k: nat)
    requires WellFormed(t) && name in t.satellites && PathOf(t, name).Ok? && k < |PathOf(t, name).value|
    ensures var p := PathOf(t, name).value;
      LevelOf(t, name).Ok? && LevelOf(t, p[k]).Ok? && LevelOf(t, name).value - LevelOf(t, p[k]).value == k
  {
    var fuel := |t.names|;
    var p := PathOf(t, name).value;
    CommonTail(t, name, k);
    LevelIsPathLength(t, name, fuel);
    LevelIsPathLength(t, p[k], fuel);
  }

  /** The first common body is the deepest object that YOU and SAN both
      orbit, directly or not. */
  lemma CommonIsDeepest(t: OrbitTable, n: string)
    requires WellFormed(t) && YOU in t.satellites && SANTA in t.satellites
    requires PathOf(t, YOU).Ok? && PathOf(t, SANTA).Ok?
    requires FirstCommon(PathOf(t, YOU).value, PathOf(t, SANTA).value).Ok?
    requires n in PathOf(t, YOU).value && n in PathOf(t, SANTA).value
    ensures var common := FirstCommon(PathOf(t, YOU).value, PathOf(t, SANTA).value).value;
      LevelOf(t, n).Ok? && LevelOf(t, common).Ok? && LevelOf(t, n).value <= LevelOf(t, common).value
  {
    var mine, theirs := PathOf(t, YOU).value, PathOf(t, SANTA).value;
    var common := FirstCommon(mine, theirs).value;
    var i, k := IndexOf(mine, common), IndexOf(mine, n);
    if k < i {
      assert false;
    }
    LevelsAlongPath(t, YOU, i);
    LevelsAlongPath(t, YOU, k);
  }

  /** The tail of an object's path from position `k` is the path of the
      object there, with the full budget. */
  lemma CommonTail(t: OrbitTable, name: string, k: nat)
    requires WellFormed(t) && name in t.satellites && PathOf(t, name).Ok? && k < |PathOf(t, name).value|
    ensures var p := PathOf(t, name).value;
      PathOf(t, p[k]).Ok? && PathOf(t, p[k]).value == p[k..] && |p| == k + |p[k..]|
  {
    var fuel := |t.names|;
    var p := PathOf(t, name).value;
    PathSuffix(t, name, fuel, k);
    PathShort(t, name, fuel);
    FuelEnough(t, p[k], fuel - k, fuel);
  }
}
