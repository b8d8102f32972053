/**
 * Day 14: the nanofactory. Reactions turn reactants into a product in fixed
 * batches; a request for a chemical is served from stock when it can be, and
 * otherwise enough batches are run (each requesting its reactants in turn) and
 * the surplus is kept. ORE is free and only counted.
 *
 * `Produce` is the specification of one request over values; the class
 * `NanoFactory` is the object of both puzzles, whose `Create` is proved to do
 * what `Produce` says. Part 2 adds a snapshot taken by every FUEL request and a
 * rollback to it, which the step-refining search of `Solve2` relies on.
 */
module Day14 {
  import opened Basics
  import opened Text

  const ORE: string := "ORE"
  const FUEL: string := "FUEL"

  datatype Molecule = Molecule(name: string, quantity: int)

  datatype Reaction = Reaction(reactants: seq<Molecule>, product: Molecule)

  /** Part 1 keeps `int` quantities and takes no snapshots; part 2 keeps `long`
      quantities and snapshots on every FUEL request. */
  datatype Edition = Puzzle1 | Puzzle2

  datatype FactoryError =
    | MissingPart(text: string)                      // an index past the parts of a line
    | BadQuantity(text: string, error: ParseError)   // int.Parse
    | DuplicateProduct(name: string)                 // ToDictionary on a repeated key
    | MissingKey(name: string)                       // a dictionary read of an unknown chemical
    | OutOfRange                                       // a value leaves the range of its C# type
    | TooDeep                                        // the request recursion ran out of depth
    | NoSnapshot                                     // Rollback with no snapshot to restore
    | TooManyRequests                                // the search loop ran out of rounds

  // ----- Parsing ----------------------------------------------------------------------

  /** "7 A": a quantity and a name, separated by spaces. */
  function ToMolecule(input: string): (r: Result<Molecule, FactoryError>)
  {
    var parts := Tokens(input, {' '});
    if |parts| < 2 then Err(MissingPart(input))
    else
      var name := Trim(parts[1]);
      match ParseInt32(parts[0])
      case Err(e) => Err(BadQuantity(parts[0], e))
      case Ok(q) => Ok(Molecule(name, q))
  }

  /** Reads the parts in order with `read`; the first that fails stops the line. */
  function ReadAll(read: string -> Result<Molecule, FactoryError>, raw: seq<string>): (r: Result<seq<Molecule>, FactoryError>)
    ensures r.Ok? ==> |r.value| == |raw|
  {
    if raw == [] then Ok([])
    else
      var first :- ReadAll(read, raw[..|raw| - 1]);
      var m :- read(Last(raw));
      Ok(first + [m])
  }

  /** "7 A, 1 E => 1 FUEL": reactants before the '>', split at ',' and '='. */
  function ParseLine(line: string): (r: Result<Reaction, FactoryError>)
  {
    var sides := Split(line, '>');
    var reactants :- ReadAll(ToMolecule, Tokens(sides[0], {',', '='}));
    if |sides| < 2 then Err(MissingPart(line))
    else
      var product :- ToMolecule(sides[1]);
      Ok(Reaction(reactants, product))
  }

  function ParseLines(lines: seq<string>): (r: Result<seq<Reaction>, FactoryError>)
    ensures r.Ok? ==> |r.value| == |lines|
  {
    if lines == [] then Ok([])
    else
      var first :- ParseLines(lines[..|lines| - 1]);
      var reaction :- ParseLine(Last(lines));
      Ok(first + [reaction])
  }

  // ----- Printing, and reading back what was printed ---------------------------------

  /** `Molecule.ToString()`: "7 A". */
  function MoleculeText(m: Molecule): string
  {
    IntToString(m.quantity) + " " + m.name
  }

  /** The parts of `string.Join(", ", texts)` between its commas: each text after
      the first follows a space. */
  function Spaced(texts: seq<string>): (parts: seq<string>)
    ensures |parts| == |texts|
  {
    seq(|texts|, i requires 0 <= i < |texts| => if i == 0 then texts[0] else " " + texts[i])
  }

  function MoleculeTexts(molecules: seq<Molecule>): (texts: seq<string>)
    ensures |texts| == |molecules|
  {
    seq(|molecules|, i requires 0 <= i < |molecules| => MoleculeText(molecules[i]))
  }

  /** `Reaction.ToString()`: "7 A, 1 E => 1 FUEL". */
  function ReactionText(r: Reaction): string
  {
    Trim(Join(Spaced(MoleculeTexts(r.reactants)), ',')) + " => " + MoleculeText(r.product)
  }

  /** A name without white space and without the characters a line is split at. */
  predicate PlainName(name: string)
  {
    name != [] && forall i :: 0 <= i < |name| ==> !IsWhiteSpace(name[i]) && name[i] != ',' && name[i] != '=' && name[i] != '>'
  }

  predicate Printable(m: Molecule)
  {
    PlainName(m.name) && InInt32(m.quantity)
  }

  /** A number is printed with digits and a minus sign only. */
  lemma NumberChars(n: int)
    ensures forall i :: 0 <= i < |IntToString(n)| ==> IsDigit(IntToString(n)[i]) || IntToString(n)[i] == '-'
  {
  }

  /** A printed molecule, with or without spaces around it, holds none of the
      characters a line is split at. */
  lemma MoleculeTextFree(m: Molecule, before: string, after: string)
    requires Printable(m) && (before == "" || before == " ") && (after == "" || after == " ")
    ensures var text := before + MoleculeText(m) + after;
      text != "" && FreeOf(text, {',', '=', '>'})
  {
    var separators := {',', '=', '>'};
    NumberChars(m.quantity);
    assert FreeOf(IntToString(m.quantity), separators);
    assert FreeOf(m.name, separators);
    FreeOfAppend(before, IntToString(m.quantity), separators);
    FreeOfAppend(before + IntToString(m.quantity), " ", separators);
    FreeOfAppend(before + IntToString(m.quantity) + " ", m.name, separators);
    FreeOfAppend(before + IntToString(m.quantity) + " " + m.name, after, separators);
    assert before + MoleculeText(m) + after == before + IntToString(m.quantity) + " " + m.name + after;
  }

  /** A printed molecule, with or without a space on either side, reads back. */
  lemma ReadMolecule(m: Molecule, before: string, after: string)
    requires Printable(m) && (before == "" || before == " ") && (after == "" || after == " ")
    ensures ToMolecule(before + MoleculeText(m) + after) == Ok(m)
  {
    var number := IntToString(m.quantity);
    NumberChars(m.quantity);
    assert FreeOf(number, {' '});
    assert FreeOf(m.name, {' '});
    TokensJoin([number, m.name], ' ', {' '});
    assert Join([number, m.name], ' ') == MoleculeText(m);
    var text := before + MoleculeText(m) + after;
    if after == " " {
      TokensTrailing(before + MoleculeText(m), ' ', {' '}, "");
    } else {
      assert text == before + MoleculeText(m);
    }
    if before == " " {
      TokensLeading(MoleculeText(m), ' ', {' '});
    } else {
      assert before + MoleculeText(m) == MoleculeText(m);
    }
    assert Tokens(text, {' '}) == [number, m.name];
    TrimUnchanged(m.name);
    ParseToString(m.quantity);
  }

  /** Parts read one by one give back the molecules they were read from. */
  lemma {:induction false} ReadEach(read: string -> Result<Molecule, FactoryError>, raw: seq<string>,
                                    molecules: seq<Molecule>)
    requires |raw| == |molecules|
    requires forall i :: 0 <= i < |raw| ==> read(raw[i]) == Ok(molecules[i])
    ensures ReadAll(read, raw) == Ok(molecules)
    decreases |raw|
  {
    if raw != [] {
      var n := |raw| - 1;
      ReadEach(read, raw[..n], molecules[..n]);
      assert molecules == molecules[..n] + [molecules[n]];
    }
  }

  /** The parts of printed reactants, the last one padded with a space. */
  function PaddedParts(texts: seq<string>): (padded: seq<string>)
    requires texts != []
    ensures |padded| == |texts|
  {
    var parts := Spaced(texts);
    parts[..|parts| - 1] + [parts[|parts| - 1] + " "]
  }

  /** Each padded part is its text, after a space unless it is the first and before
      a space if it is the last. */
  lemma PaddedPartAt(texts: seq<string>, i: int)
    requires 0 <= i < |texts|
    ensures PaddedParts(texts)[i] ==
            (if i == 0 then "" else " ") + texts[i] + (if i == |texts| - 1 then " " else "")
  {
    var spaced := Spaced(texts)[i];
    if i == |texts| - 1 {
      assert PaddedParts(texts)[i] == spaced + " ";
    } else {
      assert PaddedParts(texts)[i] == spaced;
      assert spaced == spaced + "";
    }
    if i == 0 {
      assert spaced == "" + texts[i];
    }
  }

  /** Each padded part reads back as its molecule. */
  lemma PaddedPartsRead(molecules: seq<Molecule>)
    requires molecules != [] && forall m :: m in molecules ==> Printable(m)
    ensures ReadAll(ToMolecule, PaddedParts(MoleculeTexts(molecules))) == Ok(molecules)
  {
    var texts := MoleculeTexts(molecules);
    var padded := PaddedParts(texts);
    var n := |padded| - 1;
    forall i | 0 <= i < |padded|
      ensures ToMolecule(padded[i]) == Ok(molecules[i])
    {
      assert molecules[i] in molecules;
      PaddedPartAt(texts, i);
      ReadMolecule(molecules[i], if i == 0 then "" else " ", if i == n then " " else "");
    }
    ReadEach(ToMolecule, padded, molecules);
  }

  /** No padded part is empty or holds a separator. */
  lemma PaddedPartsFree(molecules: seq<Molecule>)
    requires molecules != [] && forall m :: m in molecules ==> Printable(m)
    ensures forall p :: p in PaddedParts(MoleculeTexts(molecules)) ==> p != "" && FreeOf(p, {',', '='})
  {
    var texts := MoleculeTexts(molecules);
    var padded := PaddedParts(texts);
    forall i | 0 <= i < |padded|
      ensures padded[i] != "" && FreeOf(padded[i], {',', '='})
    {
      assert molecules[i] in molecules;
      PaddedPartAt(texts, i);
      MoleculeTextFree(molecules[i], if i == 0 then "" else " ", if i == |padded| - 1 then " " else "");
      FreeOfFewer(padded[i], {',', '='}, {',', '=', '>'});
    }
  }

  /** The reactant side of a printed line, up to its '=', splits into the padded parts. */
  lemma ReactantTokens(molecules: seq<Molecule>)
    requires molecules != [] && forall m :: m in molecules ==> Printable(m)
    ensures Tokens(Join(Spaced(MoleculeTexts(molecules)), ',') + " =", {',', '='}) == PaddedParts(MoleculeTexts(molecules))
  {
    var parts := Spaced(MoleculeTexts(molecules));
    var padded := PaddedParts(MoleculeTexts(molecules));
    PaddedPartsFree(molecules);
    JoinAppendLast(parts, ',', " ");
    assert Join(parts, ',') + " =" == Join(padded, ',') + "=";
    TokensTrailing(Join(padded, ','), '=', {',', '='}, "");
    TokensJoin(padded, ',', {',', '='});
  }

  /** A printed molecule starts with a digit or a minus sign. */
  lemma MoleculeTextStart(m: Molecule)
    ensures MoleculeText(m) != [] && !IsWhiteSpace(MoleculeText(m)[0])
  {
    NumberChars(m.quantity);
    assert MoleculeText(m)[0] == IntToString(m.quantity)[0];
  }

  /** A printed molecule ends with its name. */
  lemma MoleculeTextEnd(m: Molecule)
    requires PlainName(m.name)
    ensures MoleculeText(m) != [] && !IsWhiteSpace(MoleculeText(m)[|MoleculeText(m)| - 1])
  {
    assert MoleculeText(m)[|MoleculeText(m)| - 1] == m.name[|m.name| - 1];
  }

  /** Texts joined with ", " keep their ends, so trimming keeps texts that start and
      end with something other than white space. */
  lemma SpacedJoinTrimmed(texts: seq<string>)
    requires texts != [] && texts[0] != [] && texts[|texts| - 1] != []
    requires !IsWhiteSpace(texts[0][0]) && !IsWhiteSpace(texts[|texts| - 1][|texts[|texts| - 1]| - 1])
    ensures Trim(Join(Spaced(texts), ',')) == Join(Spaced(texts), ',')
  {
    var parts := Spaced(texts);
    var n := |parts| - 1;
    assert parts[n][|parts[n]| - 1] == texts[n][|texts[n]| - 1];
    JoinStart(parts, ',');
    JoinEnd(parts, ',');
    TrimUnchanged(Join(parts, ','));
  }

  /** Printed reactants start with a digit or a minus sign and end with a name, so
      trimming keeps them. */
  lemma ReactantsTextTrimmed(molecules: seq<Molecule>)
    requires molecules != [] && forall m :: m in molecules ==> Printable(m)
    ensures Trim(Join(Spaced(MoleculeTexts(molecules)), ',')) == Join(Spaced(MoleculeTexts(molecules)), ',')
  {
    var n := |molecules| - 1;
    assert molecules[n] in molecules;
    MoleculeTextStart(molecules[0]);
    MoleculeTextEnd(molecules[n]);
    SpacedJoinTrimmed(MoleculeTexts(molecules));
  }

  /** Texts joined with ", " hold a character other than ',' and ' ' only where the
      texts do. */
  lemma SpacedJoinFree(texts: seq<string>, c: char)
    requires c != ',' && c != ' ' && forall i :: 0 <= i < |texts| ==> c !in texts[i]
    ensures c !in Join(Spaced(texts), ',')
  {
    var parts := Spaced(texts);
    forall i | 0 <= i < |parts|
      ensures c !in parts[i]
    {
      if i > 0 {
        assert parts[i] == " " + texts[i];
      }
    }
    JoinFree(parts, ',', c);
  }

  /** Printed reactants hold no '>'. */
  lemma ReactantsTextNoArrow(molecules: seq<Molecule>)
    requires forall m :: m in molecules ==> Printable(m)
    ensures '>' !in Join(Spaced(MoleculeTexts(molecules)), ',')
  {
    var texts := MoleculeTexts(molecules);
    forall i | 0 <= i < |texts|
      ensures '>' !in texts[i]
    {
      assert molecules[i] in molecules;
      ProductNoArrow(molecules[i]);
    }
    SpacedJoinFree(texts, '>');
  }

  /** Trimming the printed reactants of a reaction changes nothing. */
  lemma ReactionTextUntrimmed(r: Reaction)
    requires r.reactants != [] && forall m :: m in r.reactants ==> Printable(m)
    ensures ReactionText(r) == Join(Spaced(MoleculeTexts(r.reactants)), ',') + " => " + MoleculeText(r.product)
  {
    ReactantsTextTrimmed(r.reactants);
  }

  /** A printed product holds no '>'. */
  lemma ProductNoArrow(m: Molecule)
    requires Printable(m)
    ensures '>' !in MoleculeText(m)
  {
    MoleculeTextFree(m, "", "");
    assert "" + MoleculeText(m) + "" == MoleculeText(m);
  }

  /** A line "left => right" splits at its '>' into "left =" and " right". */
  lemma SplitArrow(left: string, right: string)
    requires '>' !in left && '>' !in right
    ensures Split(left + " => " + right, '>') == [left + " =", " " + right]
  {
    assert left + " => " + right == (left + " =") + ['>'] + (" " + right);
    SplitTwo(left + " =", " " + right, '>');
  }

  /** A printed reaction splits at its '>' into the reactants with " =" after them,
      and the product with a space before it. */
  lemma PrintedSides(r: Reaction)
    requires r.reactants != [] && Printable(r.product) && forall m :: m in r.reactants ==> Printable(m)
    ensures Split(ReactionText(r), '>') ==
            [Join(Spaced(MoleculeTexts(r.reactants)), ',') + " =", " " + MoleculeText(r.product)]
  {
    ReactionTextUntrimmed(r);
    ReactantsTextNoArrow(r.reactants);
    ProductNoArrow(r.product);
    SplitArrow(Join(Spaced(MoleculeTexts(r.reactants)), ','), MoleculeText(r.product));
  }

  /** Parsing a printed reaction gives it back, when it has reactants and its names
      and quantities can be printed. */
  lemma ParsePrinted(r: Reaction)
    requires r.reactants != [] && Printable(r.product) && forall m :: m in r.reactants ==> Printable(m)
    ensures ParseLine(ReactionText(r)) == Ok(r)
  {
    PrintedSides(r);
    ReactantTokens(r.reactants);
    PaddedPartsRead(r.reactants);
    ReadMolecule(r.product, " ", "");
    assert " " + MoleculeText(r.product) + "" == " " + MoleculeText(r.product);
  }

  // ----- The reaction table and the initial stock -------------------------------------

  /** `ToDictionary` by product name: the first repeated name throws. */
  function ReactionTable(reactions: seq<Reaction>): (r: Result<map<string, Reaction>, FactoryError>)
  {
    if reactions == [] then Ok(map[])
    else
      var table :- ReactionTable(reactions[..|reactions| - 1]);
      var name := Last(reactions).product.name;
      if name in table then Err(DuplicateProduct(name))
      else Ok(table[name := Last(reactions)])
  }

  function ProductNames(reactions: seq<Reaction>): (names: seq<string>)
    ensures |names| == |reactions|
    ensures forall i :: 0 <= i < |reactions| ==> names[i] == reactions[i].product.name
  {
    if reactions == [] then []
    else ProductNames(reactions[..|reactions| - 1]) + [Last(reactions).product.name]
  }

  predicate Distinct(names: seq<string>)
  {
    forall i, j :: 0 <= i < j < |names| ==> names[i] != names[j]
  }

  lemma DistinctAppend(names: seq<string>, name: string)
    ensures Distinct(names + [name]) <==> Distinct(names) && name !in names
  {
    var all := names + [name];
    if Distinct(all) {
      assert forall i, j :: 0 <= i < j < |names| ==> names[i] == all[i] && names[j] == all[j];
      assert forall i :: 0 <= i < |names| ==> names[i] == all[i] != all[|names|];
    }
  }

  /** A built table maps each product name to its reaction and holds nothing else. */
  lemma {:induction false} TableKeyedByProduct(reactions: seq<Reaction>)
    ensures ReactionTable(reactions).Ok? ==>
      var table := ReactionTable(reactions).value;
      (forall name :: name in table <==> name in ProductNames(reactions)) &&
      (forall i :: 0 <= i < |reactions| ==> table[reactions[i].product.name] == reactions[i])
    decreases |reactions|
  {
    if reactions != [] && ReactionTable(reactions).Ok? {
      var n := |reactions| - 1;
      var prefix := reactions[..n];
      TableKeyedByProduct(prefix);
      var before := ReactionTable(prefix).value;
      var name := reactions[n].product.name;
      assert name !in before;
      var table := before[name := reactions[n]];
      assert ReactionTable(reactions).value == table;
      assert ProductNames(reactions) == ProductNames(prefix) + [name];
      forall i | 0 <= i < |reactions|
        ensures table[reactions[i].product.name] == reactions[i]
      {
        if i < n {
          assert prefix[i] == reactions[i];
          assert reactions[i].product.name in before;
        }
      }
    }
  }

  /** The table is built exactly when no product is repeated. */
  lemma {:induction false} TableBuilt(reactions: seq<Reaction>)
    ensures ReactionTable(reactions).Ok? <==> Distinct(ProductNames(reactions))
    decreases |reactions|
  {
    if reactions != [] {
      var prefix := reactions[..|reactions| - 1];
      TableBuilt(prefix);
      TableKeyedByProduct(prefix);
      DistinctAppend(ProductNames(prefix), Last(reactions).product.name);
    }
  }

  /** Every product starts with nothing in stock. */
  function InitialStock(table: map<string, Reaction>): (stock: map<string, int>)
    ensures stock.Keys == table.Keys
    ensures forall name :: name in stock ==> stock[name] == 0
  {
    map name | name in table :: 0
  }

  // ----- Checked arithmetic -----------------------------------------------------------

  /** A stock or ore quantity: `int` in part 1, `long` in part 2. */
  function Quantity(edition: Edition, x: int): (r: Result<int, FactoryError>)
    ensures r.Ok? <==> (if edition == Puzzle1 then InInt32(x) else InInt64(x))
    ensures r.Ok? ==> r.value == x
    ensures r.Err? ==> r.error == OutOfRange
  {
    if edition == Puzzle1 then (if InInt32(x) then Ok(x) else Err(OutOfRange))
    else if InInt64(x) then Ok(x) else Err(OutOfRange)
  }

  /** The batch count, `(int)` of the rounded-up quotient in both parts. */
  function Int(x: int): (r: Result<int, FactoryError>)
    ensures r.Ok? <==> InInt32(x)
    ensures r.Ok? ==> r.value == x
    ensures r.Err? ==> r.error == OutOfRange
  {
    if InInt32(x) then Ok(x) else Err(OutOfRange)
  }

  /** The ceiling of a / b, for either sign of b. */
  function CeilDiv(a: int, b: int): int
    requires b != 0
  {
    if b > 0 then -((-a) / b) else -(a / (-b))
  }

  /** The ceiling is the least count of batches of size b that covers a. */
  lemma CeilDivIsLeast(a: int, b: int)
    requires b > 0
    ensures CeilDiv(a, b) * b >= a
    ensures (CeilDiv(a, b) - 1) * b < a
    ensures a > 0 ==> CeilDiv(a, b) >= 1
  {
    var q := (-a) / b;
    var m := (-a) % b;
    assert -a == q * b + m && 0 <= m < b;
    assert CeilDiv(a, b) * b == -(q * b);
    assert (CeilDiv(a, b) - 1) * b == -(q * b) - b;
  }

  /** The surplus of a run of batches lies in [0, size). */
  lemma LeftoverBelowYield(deficit: int, size: int)
    requires size > 0
    ensures 0 <= CeilDiv(deficit, size) * size - deficit < size
  {
    CeilDivIsLeast(deficit, size);
  }

  /** `(int)Math.Ceiling((double)deficit / size)`; a division by zero gives an
      infinity whose conversion leaves the `int` range. */
  function BatchCount(deficit: int, size: int): (r: Result<int, FactoryError>)
    ensures size == 0 ==> r == Err(OutOfRange)
    ensures r.Ok? ==> InInt32(r.value)
  {
    if size == 0 then Err(OutOfRange) else Int(CeilDiv(deficit, size))
  }

  /** For a positive batch size the count is the least number of batches
      covering the deficit, and the conversion throws exactly when that number
      leaves the `int` range. */
  lemma BatchCountIsLeast(deficit: int, size: int)
    requires size > 0
    ensures BatchCount(deficit, size).Ok? <==> InInt32(CeilDiv(deficit, size))
    ensures BatchCount(deficit, size).Ok? ==> var n := BatchCount(deficit, size).value;
      n * size >= deficit && (n - 1) * size < deficit
  {
    CeilDivIsLeast(deficit, size);
  }

  // ----- One request, over values -----------------------------------------------------

  /** The stock and the ore count of a factory. */
  datatype Core = Core(stock: map<string, int>, oreUsed: int)

  /** A request's new stock and ore count, and the last snapshot it took, if any. */
  datatype Outcome = Outcome(core: Core, snapshot: Option<Core>)

  function Latest(earlier: Option<Core>, later: Option<Core>): Option<Core>
  {
    if later.Some? then later else earlier
  }

  /** `Create(name, quantity)` from `core`, with at most `fuel` nested requests. */
  function Produce(edition: Edition, table: map<string, Reaction>, core: Core, name: string,
                   quantity: int, fuel: nat): (r: Result<Outcome, FactoryError>)
    ensures r.Ok? ==> r.value.core.stock.Keys == core.stock.Keys
    decreases fuel, 1
  {
    if fuel == 0 then Err(TooDeep)
    else
      var taken := if edition == Puzzle2 && name == FUEL then Some(core) else None;
      if name == ORE then
        var ore :- Quantity(edition, core.oreUsed + quantity);
        Ok(Outcome(Core(core.stock, ore), None))
      else if name !in core.stock then Err(MissingKey(name))
      else if core.stock[name] >= quantity then
        var left :- Quantity(edition, core.stock[name] - quantity);
        Ok(Outcome(Core(core.stock[name := left], core.oreUsed), taken))
      else
        var deficit :- Quantity(edition, quantity - core.stock[name]);
        var made :- Replenish(edition, table, Core(core.stock[name := 0], core.oreUsed), name, deficit, fuel);
        Ok(Outcome(made.core, Latest(taken, made.snapshot)))
  }

  /** Makes up a `deficit` of `name`, whose stock is used up: the least number of
      batches, each reactant requested that many times over, and the surplus kept. */
  function Replenish(edition: Edition, table: map<string, Reaction>, core: Core, name: string,
                     deficit: int, fuel: nat): (r: Result<Outcome, FactoryError>)
    requires fuel > 0 && name in core.stock
    ensures r.Ok? ==> r.value.core.stock.Keys == core.stock.Keys
    decreases fuel, 0
  {
    if name !in table then Err(MissingKey(name))
    else
      var reaction := table[name];
      var batches :- BatchCount(deficit, reaction.product.quantity);
      var made :- ProduceAll(edition, table, core, reaction.reactants, batches, fuel - 1);
      var actual :- Quantity(edition, batches * reaction.product.quantity);
      var unused :- Quantity(edition, actual - deficit);
      var kept :- Quantity(edition, made.core.stock[name] + unused);
      Ok(Outcome(Core(made.core.stock[name := kept], made.core.oreUsed), made.snapshot))
  }

  /** Requests each reactant in turn, `batches` times its quantity. */
  function ProduceAll(edition: Edition, table: map<string, Reaction>, core: Core,
                      reactants: seq<Molecule>, batches: int, fuel: nat): (r: Result<Outcome, FactoryError>)
    ensures r.Ok? ==> r.value.core.stock.Keys == core.stock.Keys
    decreases fuel, |reactants| + 2
  {
    if reactants == [] then Ok(Outcome(core, None))
    else
      var before :- ProduceAll(edition, table, core, reactants[..|reactants| - 1], batches, fuel);
      var amount :- Quantity(edition, Last(reactants).quantity * batches);
      var after :- Produce(edition, table, before.core, Last(reactants).name, amount, fuel);
      Ok(Outcome(after.core, Latest(before.snapshot, after.snapshot)))
  }

  /** A request for ORE only adds the quantity to the ore count. */
  lemma OreOnlyCounted(edition: Edition, table: map<string, Reaction>, core: Core, quantity: int, fuel: nat)
    requires fuel > 0
    ensures var r := Produce(edition, table, core, ORE, quantity, fuel);
      r.Ok? <==> Quantity(edition, core.oreUsed + quantity).Ok?
    ensures var r := Produce(edition, table, core, ORE, quantity, fuel);
      r.Ok? ==> r.value.core.stock == core.stock && r.value.core.oreUsed == core.oreUsed + quantity &&
                r.value.snapshot.None?
  {
  }

  /** A request that the stock covers takes it from stock and changes nothing else. */
  lemma ServedFromStock(edition: Edition, table: map<string, Reaction>, core: Core, name: string,
                        quantity: int, fuel: nat)
    requires fuel > 0 && name != ORE && name in core.stock && core.stock[name] >= quantity
    requires quantity >= 0 && Quantity(edition, core.stock[name]).Ok?
    ensures var r := Produce(edition, table, core, name, quantity, fuel);
      r.Ok? && r.value.core.oreUsed == core.oreUsed &&
      r.value.core.stock == core.stock[name := core.stock[name] - quantity]
  {
  }

  /** A request the stock does not cover uses up the stock, runs the least number of
      batches that covers the rest, requests every reactant that many times over and
      keeps the surplus, which is less than one batch. */
  lemma RunsBatches(edition: Edition, table: map<string, Reaction>, core: Core, name: string,
                    quantity: int, fuel: nat)
    requires fuel > 0 && name != ORE && name in core.stock && core.stock[name] < quantity
    requires name in table && table[name].product.quantity > 0
    requires Produce(edition, table, core, name, quantity, fuel).Ok?
    ensures var deficit := quantity - core.stock[name];
      var size := table[name].product.quantity;
      var batches := CeilDiv(deficit, size);
      var made := ProduceAll(edition, table, Core(core.stock[name := 0], core.oreUsed),
                             table[name].reactants, batches, fuel - 1);
      var r := Produce(edition, table, core, name, quantity, fuel);
      batches >= 1 && batches * size >= deficit && (batches - 1) * size < deficit &&
      made.Ok? && r.value.core.oreUsed == made.value.core.oreUsed &&
      r.value.core.stock == made.value.core.stock[name := made.value.core.stock[name] + batches * size - deficit] &&
      0 <= batches * size - deficit < table[name].product.quantity
  {
    var deficit := quantity - core.stock[name];
    CeilDivIsLeast(deficit, table[name].product.quantity);
  }

  // ----- What every request keeps -----------------------------------------------------

  /** Batches of positive size and reactant quantities that are never negative. */
  predicate WellFormed(table: map<string, Reaction>)
  {
    forall name :: name in table ==>
      table[name].product.quantity > 0 && forall m :: m in table[name].reactants ==> m.quantity >= 0
  }

  predicate NonNegativeStock(core: Core)
  {
    forall name :: name in core.stock ==> core.stock[name] >= 0
  }

  /** No stock ever goes negative, and the ore count never decreases. */
  lemma {:induction false} ProduceKeeps(edition: Edition, table: map<string, Reaction>, core: Core,
                                        name: string, quantity: int, fuel: nat)
    requires WellFormed(table) && NonNegativeStock(core) && quantity >= 0
    ensures var r := Produce(edition, table, core, name, quantity, fuel);
      r.Ok? ==> NonNegativeStock(r.value.core) && r.value.core.oreUsed >= core.oreUsed
    decreases fuel, 1
  {
    if fuel > 0 && name != ORE && name in core.stock && core.stock[name] < quantity {
      ReplenishKeeps(edition, table, Core(core.stock[name := 0], core.oreUsed), name, quantity - core.stock[name], fuel);
    }
  }

  lemma {:induction false} ReplenishKeeps(edition: Edition, table: map<string, Reaction>, core: Core,
                                          name: string, deficit: int, fuel: nat)
    requires fuel > 0 && name in core.stock
    requires WellFormed(table) && NonNegativeStock(core) && deficit > 0
    ensures var r := Replenish(edition, table, core, name, deficit, fuel);
      r.Ok? ==> NonNegativeStock(r.value.core) && r.value.core.oreUsed >= core.oreUsed
    decreases fuel, 0
  {
    if name in table {
      var reaction := table[name];
      var size := reaction.product.quantity;
      CeilDivIsLeast(deficit, size);
      ProduceAllKeeps(edition, table, core, reaction.reactants, CeilDiv(deficit, size), fuel - 1);
    }
  }

  lemma {:induction false} ProduceAllKeeps(edition: Edition, table: map<string, Reaction>, core: Core,
                                           reactants: seq<Molecule>, batches: int, fuel: nat)
    requires WellFormed(table) && NonNegativeStock(core) && batches >= 0
    requires forall m :: m in reactants ==> m.quantity >= 0
    ensures var r := ProduceAll(edition, table, core, reactants, batches, fuel);
      r.Ok? ==> NonNegativeStock(r.value.core) && r.value.core.oreUsed >= core.oreUsed
    decreases fuel, |reactants| + 2
  {
    if reactants != [] {
      var prefix := reactants[..|reactants| - 1];
      assert forall m :: m in prefix ==> m in reactants;
      ProduceAllKeeps(edition, table, core, prefix, batches, fuel);
      var before := ProduceAll(edition, table, core, prefix, batches, fuel);
      if before.Ok? {
        var last := Last(reactants);
        assert last in reactants;
        MulNonNegative(last.quantity, batches);
        ProduceKeeps(edition, table, before.value.core, last.name, last.quantity * batches, fuel);
      }
    }
  }

  /** Part 2 computes the same stock and ore count as part 1 wherever part 1 stays
      within `int`: only the width of the quantities differs. */
  lemma {:induction false} EditionsAgree(table: map<string, Reaction>, core: Core, name: string,
                                         quantity: int, fuel: nat)
    ensures var one := Produce(Puzzle1, table, core, name, quantity, fuel);
      var two := Produce(Puzzle2, table, core, name, quantity, fuel);
      one.Ok? ==> two.Ok? && two.value.core == one.value.core
    decreases fuel, 1
  {
    if fuel > 0 && name != ORE && name in core.stock && core.stock[name] < quantity {
      EditionsAgreeReplenish(table, Core(core.stock[name := 0], core.oreUsed), name, quantity - core.stock[name], fuel);
    }
  }

  lemma {:induction false} EditionsAgreeReplenish(table: map<string, Reaction>, core: Core, name: string,
                                                  deficit: int, fuel: nat)
    requires fuel > 0 && name in core.stock
    ensures var one := Replenish(Puzzle1, table, core, name, deficit, fuel);
      var two := Replenish(Puzzle2, table, core, name, deficit, fuel);
      one.Ok? ==> two.Ok? && two.value.core == one.value.core
    decreases fuel, 0
  {
    if name in table {
      var reaction := table[name];
      var batches := BatchCount(deficit, reaction.product.quantity);
      if batches.Ok? {
        EditionsAgreeAll(table, core, reaction.reactants, batches.value, fuel - 1);
      }
    }
  }

  lemma {:induction false} EditionsAgreeAll(table: map<string, Reaction>, core: Core,
                                            reactants: seq<Molecule>, batches: int, fuel: nat)
    ensures var one := ProduceAll(Puzzle1, table, core, reactants, batches, fuel);
      var two := ProduceAll(Puzzle2, table, core, reactants, batches, fuel);
      one.Ok? ==> two.Ok? && two.value.core == one.value.core
    decreases fuel, |reactants| + 2
  {
    if reactants != [] {
      var prefix := reactants[..|reactants| - 1];
      EditionsAgreeAll(table, core, prefix, batches, fuel);
      var before := ProduceAll(Puzzle1, table, core, prefix, batches, fuel);
      if before.Ok? {
        EditionsAgree(table, before.value.core, Last(reactants).name, Last(reactants).quantity * batches, fuel);
      }
    }
  }

  /** The converse fails: part 2's `long` products serve a million FUEL made from
      3000 ORE each, where part 1's `int` arithmetic overflows. */
  lemma PartTwoWider()
    ensures var table := map[FUEL := Reaction([Molecule(ORE, 3000)], Molecule(FUEL, 1))];
      var core := Core(map[FUEL := 0], 0);
      var two := Produce(Puzzle2, table, core, FUEL, 1000000, 2);
      two.Ok? && two.value.core == Core(map[FUEL := 0], 3000000000) &&
      Produce(Puzzle1, table, core, FUEL, 1000000, 2) == Err(OutOfRange)
  {
  }

  // ----- Snapshots --------------------------------------------------------------------

  /** Part 1 never takes a snapshot. */
  lemma {:induction false} Puzzle1NoSnapshot(table: map<string, Reaction>, core: Core, name: string,
                                             quantity: int, fuel: nat)
    ensures var r := Produce(Puzzle1, table, core, name, quantity, fuel);
      r.Ok? ==> r.value.snapshot.None?
    decreases fuel, 1
  {
    if fuel > 0 && name != ORE && name in core.stock && core.stock[name] < quantity && name in table {
      var deficit := quantity - core.stock[name];
      var reaction := table[name];
      var batches := BatchCount(deficit, reaction.product.quantity);
      if batches.Ok? {
        Puzzle1NoSnapshotAll(table, Core(core.stock[name := 0], core.oreUsed), reaction.reactants, batches.value, fuel - 1);
      }
    }
  }

  lemma {:induction false} Puzzle1NoSnapshotAll(table: map<string, Reaction>, core: Core,
                                                reactants: seq<Molecule>, batches: int, fuel: nat)
    ensures var r := ProduceAll(Puzzle1, table, core, reactants, batches, fuel);
      r.Ok? ==> r.value.snapshot.None?
    decreases fuel, |reactants| + 2
  {
    if reactants != [] {
      var prefix := reactants[..|reactants| - 1];
      Puzzle1NoSnapshotAll(table, core, prefix, batches, fuel);
      var before := ProduceAll(Puzzle1, table, core, prefix, batches, fuel);
      if before.Ok? {
        Puzzle1NoSnapshot(table, before.value.core, Last(reactants).name, Last(reactants).quantity * batches, fuel);
      }
    }
  }

  /** No reaction consumes FUEL. */
  predicate FuelFree(table: map<string, Reaction>)
  {
    forall name :: name in table ==> forall m :: m in table[name].reactants ==> m.name != FUEL
  }

  /** When no reaction consumes FUEL, a request for anything else takes no snapshot. */
  lemma {:induction false} OthersNoSnapshot(table: map<string, Reaction>, core: Core, name: string,
                                            quantity: int, fuel: nat)
    requires FuelFree(table) && name != FUEL
    ensures var r := Produce(Puzzle2, table, core, name, quantity, fuel);
      r.Ok? ==> r.value.snapshot.None?
    decreases fuel, 1
  {
    if fuel > 0 && name != ORE && name in core.stock && core.stock[name] < quantity && name in table {
      var deficit := quantity - core.stock[name];
      var reaction := table[name];
      var batches := BatchCount(deficit, reaction.product.quantity);
      if batches.Ok? {
        OthersNoSnapshotAll(table, Core(core.stock[name := 0], core.oreUsed), reaction.reactants, batches.value, fuel - 1);
      }
    }
  }

  lemma {:induction false} OthersNoSnapshotAll(table: map<string, Reaction>, core: Core,
                                               reactants: seq<Molecule>, batches: int, fuel: nat)
    requires FuelFree(table) && forall m :: m in reactants ==> m.name != FUEL
    ensures var r := ProduceAll(Puzzle2, table, core, reactants, batches, fuel);
      r.Ok? ==> r.value.snapshot.None?
    decreases fuel, |reactants| + 2
  {
    if reactants != [] {
      var prefix := reactants[..|reactants| - 1];
      assert forall m :: m in prefix ==> m in reactants;
      OthersNoSnapshotAll(table, core, prefix, batches, fuel);
      var before := ProduceAll(Puzzle2, table, core, prefix, batches, fuel);
      if before.Ok? {
        assert Last(reactants) in reactants;
        OthersNoSnapshot(table, before.value.core, Last(reactants).name, Last(reactants).quantity * batches, fuel);
      }
    }
  }

  /** In part 2 a FUEL request leaves as its snapshot the stock and ore count it
      started from, taken before anything changed. */
  lemma FuelSnapshot(table: map<string, Reaction>, core: Core, quantity: int, fuel: nat)
    requires FuelFree(table)
    ensures var r := Produce(Puzzle2, table, core, FUEL, quantity, fuel);
      r.Ok? ==> r.value.snapshot == Some(core)
  {
    if fuel > 0 && FUEL in core.stock && core.stock[FUEL] < quantity && FUEL in table {
      var deficit := quantity - core.stock[FUEL];
      var reaction := table[FUEL];
      var batches := BatchCount(deficit, reaction.product.quantity);
      if batches.Ok? {
        assert forall m :: m in reaction.reactants ==> m.name != FUEL;
        OthersNoSnapshotAll(table, Core(core.stock[FUEL := 0], core.oreUsed), reaction.reactants, batches.value, fuel - 1);
      }
    }
  }

  /** A failure part way through the reactants is the failure of the whole loop. */
  lemma {:induction false} ProduceAllStops(edition: Edition, table: map<string, Reaction>, core: Core,
                                           reactants: seq<Molecule>, batches: int, fuel: nat, k: nat)
    requires k <= |reactants|
    requires ProduceAll(edition, table, core, reactants[..k], batches, fuel).Err?
    ensures ProduceAll(edition, table, core, reactants, batches, fuel) ==
            ProduceAll(edition, table, core, reactants[..k], batches, fuel)
    decreases |reactants| - k
  {
    if k < |reactants| {
      var n := |reactants| - 1;
      assert reactants[..n][..k] == reactants[..k];
      ProduceAllStops(edition, table, core, reactants[..n], batches, fuel, k);
    } else {
      assert reactants[..k] == reactants;
    }
  }

  // ----- The factory object -----------------------------------------------------------

  class NanoFactory {
    const edition: Edition
    const reactions: map<string, Reaction>
    var stock: map<string, int>
    var oreUsed: int
    var snapshotOreUsed: int
    var snapshotStock: Option<map<string, int>>

    function Current(): Core
      reads this
    {
      Core(stock, oreUsed)
    }

    /** The stored snapshot; none once the stock copy is cleared. */
    function Snapshot(): Option<Core>
      reads this
    {
      if snapshotStock.Some? then Some(Core(snapshotStock.value, snapshotOreUsed)) else None
    }

    /** Every product starts with nothing in stock, and no ore is used. */
    constructor(edition: Edition, reactions: map<string, Reaction>)
      ensures this.edition == edition && this.reactions == reactions
      ensures stock == InitialStock(reactions) && oreUsed == 0
      ensures snapshotOreUsed == 0 && snapshotStock == None
    {
      this.edition := edition;
      this.reactions := reactions;
      stock := InitialStock(reactions);
      oreUsed := 0;
      snapshotOreUsed := 0;
      snapshotStock := None;
    }

    /** Remembers the ore count and a copy of the stock. */
    method TakeSnapshot()
      modifies this
      ensures Snapshot() == Some(old(Current()))
      ensures Current() == old(Current())
    {
      snapshotOreUsed := oreUsed;
      snapshotStock := Some(stock);
    }

    /** Restores exactly what was snapshotted and forgets it; with no snapshot stored
        the copy of a null dictionary throws. */
    method Rollback() returns (r: Result<(), FactoryError>)
      modifies this
      ensures old(Snapshot()).None? <==> r.Err?
      ensures r.Err? ==> r.error == NoSnapshot
      ensures r.Ok? ==> Current() == old(Snapshot()).value
      ensures r.Ok? ==> snapshotOreUsed == 0 && snapshotStock == None
    {
      oreUsed := snapshotOreUsed;
      if snapshotStock.None? {
        return Err(NoSnapshot);
      }
      stock := snapshotStock.value;
      snapshotOreUsed := 0;
      snapshotStock := None;
      return Ok(());
    }

    /** The factory's state agrees with the outcome `o` of a request and its result
        with `r`; a snapshot not retaken keeps the fields it had. */
    ghost predicate Reflects(o: Result<Outcome, FactoryError>, r: Result<(), FactoryError>,
                             snapOre: int, snapStock: Option<map<string, int>>)
      reads this
    {
      (r.Ok? <==> o.Ok?) && (r.Err? ==> r.error == o.error) &&
      (o.Ok? ==> Current() == o.value.core &&
                 (o.value.snapshot.Some? ==> Snapshot() == o.value.snapshot) &&
                 (o.value.snapshot.None? ==> snapshotOreUsed == snapOre && snapshotStock == snapStock))
    }

    /** `Create(name, quantity)`, with at most `fuel` nested requests: what `Produce`
        computes, and a new snapshot exactly when the request took one. */
    method Create(name: string, quantity: int, fuel: nat) returns (r: Result<(), FactoryError>)
      modifies this
      ensures Reflects(Produce(edition, reactions, old(Current()), name, quantity, fuel), r,
                       old(snapshotOreUsed), old(snapshotStock))
      decreases fuel, 2
    {
      if fuel == 0 {
        return Err(TooDeep);
      }
      if edition == Puzzle2 && name == FUEL {
        TakeSnapshot();
      } else if name == ORE {
        var ore := Quantity(edition, oreUsed + quantity);
        if ore.Err? {
          return Err(ore.error);
        }
        oreUsed := ore.value;
        return Ok(());
      }
      if name !in stock {
        return Err(MissingKey(name));
      }
      if stock[name] >= quantity {
        var left := Quantity(edition, stock[name] - quantity);
        if left.Err? {
          return Err(left.error);
        }
        stock := stock[name := left.value];
        return Ok(());
      }
      var deficit := Quantity(edition, quantity - stock[name]);
      if deficit.Err? {
        return Err(deficit.error);
      }
      stock := stock[name := 0];
      r := Restock(name, deficit.value, fuel);
    }

    /** Makes up a deficit of `name` after its stock is used up, as `Replenish` says. */
    method Restock(name: string, deficit: int, fuel: nat) returns (r: Result<(), FactoryError>)
      requires fuel > 0 && name in stock
      modifies this
      ensures Reflects(Replenish(edition, reactions, old(Current()), name, deficit, fuel), r,
                       old(snapshotOreUsed), old(snapshotStock))
      decreases fuel, 1
    {
      if name !in reactions {
        return Err(MissingKey(name));
      }
      var reaction := reactions[name];
      var batches := BatchCount(deficit, reaction.product.quantity);
      if batches.Err? {
        return Err(batches.error);
      }
      r := CreateAll(reaction.reactants, batches.value, fuel - 1);
      if r.Err? {
        return;
      }
      var actual := Quantity(edition, batches.value * reaction.product.quantity);
      if actual.Err? {
        return Err(actual.error);
      }
      var unused := Quantity(edition, actual.value - deficit);
      if unused.Err? {
        return Err(unused.error);
      }
      var kept := Quantity(edition, stock[name] + unused.value);
      if kept.Err? {
        return Err(kept.error);
      }
      stock := stock[name := kept.value];
    }

    /** The loop over a reaction's reactants, each requested `batches` times over. */
    method CreateAll(reactants: seq<Molecule>, batches: int, fuel: nat) returns (r: Result<(), FactoryError>)
      modifies this
      ensures Reflects(ProduceAll(edition, reactions, old(Current()), reactants, batches, fuel), r,
                       old(snapshotOreUsed), old(snapshotStock))
      decreases fuel, 3
    {
      ghost var start := Current();
      var i := 0;
      while i < |reactants|
        invariant 0 <= i <= |reactants|
        invariant ProduceAll(edition, reactions, start, reactants[..i], batches, fuel).Ok?
        invariant Reflects(ProduceAll(edition, reactions, start, reactants[..i], batches, fuel), Ok(()),
                           old(snapshotOreUsed), old(snapshotStock))
      {
        var reactant := reactants[i];
        assert reactants[..i + 1][..i] == reactants[..i];
        var amount := Quantity(edition, reactant.quantity * batches);
        if amount.Err? {
          ProduceAllStops(edition, reactions, start, reactants, batches, fuel, i + 1);
          return Err(amount.error);
        }
        r := Create(reactant.name, amount.value, fuel);
        if r.Err? {
          ProduceAllStops(edition, reactions, start, reactants, batches, fuel, i + 1);
          return;
        }
        i := i + 1;
      }
      assert reactants[..i] == reactants;
      return Ok(());
    }
  }

  // ----- The two puzzles --------------------------------------------------------------

  /** Parses the reactions and builds the table the factory is made with. */
  function Setup(lines: seq<string>): Result<map<string, Reaction>, FactoryError>
  {
    var reactions :- ParseLines(lines);
    ReactionTable(reactions)
  }

  /** The ore needed for one FUEL, from an empty stock. */
  function OreForOneFuel(lines: seq<string>, depth: nat): Result<int, FactoryError>
  {
    var table :- Setup(lines);
    var made :- Produce(Puzzle1, table, Core(InitialStock(table), 0), FUEL, 1, depth);
    Ok(made.core.oreUsed)
  }

  /** With positive batches and reactant quantities, the ore count for one FUEL is
      never negative, and part 2's wider arithmetic gives the same count. */
  lemma OreForOneFuelAgrees(lines: seq<string>, depth: nat)
    requires Setup(lines).Ok? && WellFormed(Setup(lines).value)
    ensures OreForOneFuel(lines, depth).Ok? ==>
      var table := Setup(lines).value;
      var two := Produce(Puzzle2, table, Core(InitialStock(table), 0), FUEL, 1, depth);
      OreForOneFuel(lines, depth).value >= 0 && two.Ok? && two.value.core.oreUsed == OreForOneFuel(lines, depth).value
  {
    var table := Setup(lines).value;
    var start := Core(InitialStock(table), 0);
    ProduceKeeps(Puzzle1, table, start, FUEL, 1, depth);
    EditionsAgree(table, start, FUEL, 1, depth);
  }

  /** Part 1: one FUEL, and the ore it took. */
  method Solve1(lines: seq<string>, depth: nat) returns (r: Result<int, FactoryError>)
    ensures r == OreForOneFuel(lines, depth)
  {
    var table := Setup(lines);
    if table.Err? {
      return Err(table.error);
    }
    var factory := new NanoFactory(Puzzle1, table.value);
    var made := factory.Create(FUEL, 1, depth);
    if made.Err? {
      return Err(made.error);
    }
    return Ok(factory.oreUsed);
  }

  const AVAILABLE_ORE: int := 1000000000000

  /** The FUEL step sizes of part 2's search, largest first. */
  const STEPS: seq<int> := [1000000, 100000, 10000, 1000, 100, 10, 1]

  /** The step sizes from `step` on, each a tenth of the one before, while at least one. */
  function Refinements(step: int): seq<int>
    decreases step
  {
    if step >= 1 then [step] + Refinements(step / 10) else []
  }

  /** Starting at a million, the steps are the powers of ten down to one, and then
      the search stops. */
  lemma RefinementsFromAMillion()
    ensures Refinements(1000000) == STEPS
  {
  }

  /** The stock and ore count after FUEL requests of the given sizes in turn. */
  function Replay(table: map<string, Reaction>, core: Core, steps: seq<int>, depth: nat): Result<Core, FactoryError>
  {
    if steps == [] then Ok(core)
    else
      var before :- Replay(table, core, steps[..|steps| - 1], depth);
      var made :- Produce(Puzzle2, table, before, FUEL, Last(steps), depth);
      Ok(made.core)
  }

  /** The FUEL requests `steps`, made in turn from `start`, leave the stock and ore count `core`. */
  ghost predicate Reaches(table: map<string, Reaction>, start: Core, steps: seq<int>, depth: nat, core: Core)
  {
    Replay(table, start, steps, depth).Ok? && Replay(table, start, steps, depth).value == core
  }

  /** The inner loop of part 2: FUEL requests of size `step` while the ore count is
      below what is available. It ends with the last request's snapshot stored,
      taken below the ore available, and the ore count at or above it. */
  method RequestWhileOreLeft(factory: NanoFactory, step: int, fuelCount: int, depth: nat, rounds: nat,
                             ghost start: Core, ghost done: seq<int>)
    returns (r: Result<int, FactoryError>, ghost committed: seq<int>)
    requires factory.edition == Puzzle2 && factory.Snapshot() == None && fuelCount == Sum(done)
    requires FuelFree(factory.reactions) ==>
      Reaches(factory.reactions, start, done, depth, factory.Current()) && factory.oreUsed < AVAILABLE_ORE
    modifies factory
    ensures r.Ok? ==> r.value == Sum(committed)
    ensures r.Ok? && factory.Snapshot().Some? ==> |committed| > 0 && Last(committed) == step
    ensures r.Ok? && FuelFree(factory.reactions) ==> |committed| > 0 && Last(committed) == step
    ensures r.Ok? && FuelFree(factory.reactions) ==>
      var before := committed[..|committed| - 1];
      Reaches(factory.reactions, start, committed, depth, factory.Current()) &&
      factory.oreUsed >= AVAILABLE_ORE &&
      Replay(factory.reactions, start, before, depth).Ok? &&
      factory.Snapshot() == Some(Replay(factory.reactions, start, before, depth).value) &&
      factory.Snapshot().value.oreUsed < AVAILABLE_ORE
  {
    ghost var table := factory.reactions;
    ghost var fuelFree := FuelFree(table);
    committed := done;
    var total := fuelCount;
    var count := 0;
    ghost var created := false;
    while factory.oreUsed < AVAILABLE_ORE
      invariant 0 <= count <= rounds && total == Sum(committed)
      invariant factory.Snapshot().Some? ==> created
      invariant created ==> |committed| > 0 && Last(committed) == step
      invariant fuelFree ==> Reaches(table, start, committed, depth, factory.Current())
      invariant fuelFree && !created ==> factory.oreUsed < AVAILABLE_ORE
      invariant fuelFree && created ==>
        var before := Replay(table, start, committed[..|committed| - 1], depth);
        before.Ok? && factory.Snapshot() == Some(before.value) && before.value.oreUsed < AVAILABLE_ORE
      decreases rounds - count
    {
      if count == rounds {
        return Err(TooManyRequests), committed;
      }
      ghost var before := factory.Current();
      var made := factory.Create(FUEL, step, depth);
      if made.Err? {
        return Err(made.error), committed;
      }
      if !InInt64(total + step) {
        return Err(OutOfRange), committed;
      }
      total := total + step;
      assert (committed + [step])[..|committed|] == committed;
      if fuelFree {
        FuelSnapshot(table, before, step, depth);
      }
      committed := committed + [step];
      created := true;
      count := count + 1;
    }
    return Ok(total), committed;
  }

  /** One step size of part 2: FUEL requests while ore is left, then the last one
      rolled back. The requests kept fit in the ore available, and one more of this
      size would not. */
  method RequestAndRollBack(factory: NanoFactory, step: int, fuelCount: int, depth: nat, rounds: nat,
                            ghost start: Core, ghost done: seq<int>)
    returns (r: Result<int, FactoryError>, ghost committed: seq<int>)
    requires factory.edition == Puzzle2 && factory.Snapshot() == None && fuelCount == Sum(done)
    requires FuelFree(factory.reactions) ==>
      Reaches(factory.reactions, start, done, depth, factory.Current()) && factory.oreUsed < AVAILABLE_ORE
    modifies factory
    ensures r.Ok? ==> r.value == Sum(committed) && factory.Snapshot() == None
    ensures r.Ok? && FuelFree(factory.reactions) ==>
      Reaches(factory.reactions, start, committed, depth, factory.Current()) &&
      factory.oreUsed < AVAILABLE_ORE &&
      Replay(factory.reactions, start, committed + [step], depth).Ok? &&
      Replay(factory.reactions, start, committed + [step], depth).value.oreUsed >= AVAILABLE_ORE
  {
    ghost var last;
    var filled;
    filled, last := RequestWhileOreLeft(factory, step, fuelCount, depth, rounds, start, done);
    committed := last;
    if filled.Err? {
      return Err(filled.error), committed;
    }
    var back := factory.Rollback();
    if back.Err? {
      return Err(back.error), committed;
    }
    committed := last[..|last| - 1];
    assert last == committed + [step];
    SumAppend(committed, [step]);
    return Ok(filled.value - step), committed;
  }

  /** Part 2: requests FUEL in steps of a million while ore is left, rolls the last
      request back, and refines the step tenfold down to one. The answer is the total
      of the requests kept; when no reaction consumes FUEL they fit in the ore
      available, and one more FUEL would not. Each request nests at most `depth`
      deep, and each step size is requested at most `rounds` times. */
  method Solve2(lines: seq<string>, depth: nat, rounds: nat)
    returns (r: Result<int, FactoryError>, ghost committed: seq<int>, ghost sizes: seq<int>)
    ensures r.Ok? ==> Setup(lines).Ok? && r.value == Sum(committed) && sizes == STEPS
    ensures r.Ok? && FuelFree(Setup(lines).value) ==>
      var table := Setup(lines).value;
      var start := Core(InitialStock(table), 0);
      var more := Replay(table, start, committed + [1], depth);
      Replay(table, start, committed, depth).Ok? && Replay(table, start, committed, depth).value.oreUsed < AVAILABLE_ORE &&
      more.Ok? && more.value.oreUsed >= AVAILABLE_ORE
  {
    committed, sizes := [], [];
    var table := Setup(lines);
    if table.Err? {
      return Err(table.error), committed, sizes;
    }
    var factory := new NanoFactory(Puzzle2, table.value);
    ghost var start := factory.Current();
    ghost var fuelFree := FuelFree(table.value);
    var fuelCount := 0;
    var step := 1000000;
    while step >= 1
      invariant sizes + Refinements(step) == Refinements(1000000)
      invariant factory.edition == Puzzle2 && factory.reactions == table.value
      invariant fuelCount == Sum(committed) && factory.Snapshot() == None
      invariant fuelFree ==> Reaches(table.value, start, committed, depth, factory.Current()) &&
                             factory.oreUsed < AVAILABLE_ORE
      invariant fuelFree && sizes != [] ==>
        Replay(table.value, start, committed + [Last(sizes)], depth).Ok? &&
        Replay(table.value, start, committed + [Last(sizes)], depth).value.oreUsed >= AVAILABLE_ORE
      decreases step
    {
      var kept;
      kept, committed := RequestAndRollBack(factory, step, fuelCount, depth, rounds, start, committed);
      if kept.Err? {
        return Err(kept.error), committed, sizes;
      }
      fuelCount := kept.value;
      ghost var rest := Refinements(step / 10);
      assert Refinements(step) == [step] + rest;
      assert (sizes + [step]) + rest == sizes + ([step] + rest);
      sizes := sizes + [step];
      step := step / 10;
    }
    RefinementsFromAMillion();
    return Ok(fuelCount), committed, sizes;
  }
}
