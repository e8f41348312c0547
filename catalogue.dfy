/**
 * The destination catalogue (LocationList): seeded with six fixed entries,
 * looked up by a bounds-checked index, and extended by importing lines of the
 * form name,country,baseCost,description.
 */
module Catalogue {
  import opened Wrappers
  import opened Exceptions
  import opened Text
  import opened Destinations

  /** The six entries every catalogue starts with, in menu order. */
  function DefaultDestinations(): seq<Destination>
  {
    [ City("Paris", "France", 500.0, "The City of Light with iconic landmarks"),
      City("Tokyo", "Japan", 600.0, "Modern metropolis with rich culture"),
      City("New York", "USA", 700.0, "The city that never sleeps"),
      Tour("Bali", "Indonesia", 400.0, "Tropical paradise with beaches and temples", 7, "Beach & Culture"),
      Tour("Swiss Alps", "Switzerland", 800.0, "Mountain adventure with stunning views", 5, "Adventure"),
      Tour("Dubai", "UAE", 900.0, "Luxury and modern architecture", 4, "Luxury") ]
  }

  /** The seed holds three cities and then three tours, in a fixed order. */
  lemma DefaultDestinationsOrder()
    ensures |DefaultDestinations()| == 6
    ensures forall k :: 0 <= k < 3 ==> DefaultDestinations()[k].City?
    ensures forall k :: 3 <= k < 6 ==> DefaultDestinations()[k].Tour?
    ensures DefaultDestinations()[0].name == "Paris" && DefaultDestinations()[0].baseCost == 500.0
    ensures DefaultDestinations()[1].name == "Tokyo" && DefaultDestinations()[1].baseCost == 600.0
    ensures DefaultDestinations()[2].name == "New York" && DefaultDestinations()[2].baseCost == 700.0
    ensures DefaultDestinations()[3].name == "Bali" && DefaultDestinations()[3].baseCost == 400.0
    ensures DefaultDestinations()[3].durationDays == 7
    ensures DefaultDestinations()[4].name == "Swiss Alps" && DefaultDestinations()[4].baseCost == 800.0
    ensures DefaultDestinations()[4].durationDays == 5
    ensures DefaultDestinations()[5].name == "Dubai" && DefaultDestinations()[5].baseCost == 900.0
    ensures DefaultDestinations()[5].durationDays == 4
  {
  }

  // ---------------------------------------------------------------------------
  // Importing lines
  // ---------------------------------------------------------------------------

  /** What one imported line yields. */
  datatype LineParse =
    /** Fewer than four fields: the line is passed over. */
    | Skip
    | Parsed(dest: Destination)
    /** The cost field is not a number: the import stops here. */
    | BadNumber(input: string)

  /**
   * The body of the read loop for one line: split at commas, trim fields 0 to 3,
   * parse field 2 as the cost. parse stands for Double.parseDouble, None for a
   * NumberFormatException.
   */
  function ParseLine(line: string, parse: string -> Option<real>): (r: LineParse)
    ensures r.Parsed? ==> r.dest.Plain?
  {
    var parts := JavaSplit(line, ',');
    if |parts| < 4 then Skip
    else
      match parse(Trim(parts[2]))
      case None => BadNumber(Trim(parts[2]))
      case Some(cost) => Parsed(Plain(Trim(parts[0]), Trim(parts[1]), cost, Trim(parts[3])))
  }

  /**
   * A line is skipped exactly when it has fewer than four fields; otherwise it
   * fails exactly when its trimmed cost field does not parse.
   */
  lemma ParseLineCases(line: string, parse: string -> Option<real>)
    ensures ParseLine(line, parse).Skip? <==> |JavaSplit(line, ',')| < 4
    ensures |JavaSplit(line, ',')| >= 4 ==>
              (ParseLine(line, parse).BadNumber? <==> parse(Trim(JavaSplit(line, ',')[2])).None?)
  {
  }

  /**
   * A line of at least four comma-free fields whose last field is not empty,
   * possibly followed by trailing commas, yields the plain destination described
   * by its first four fields; the trailing empty fields and any fields after the
   * fourth are ignored, so a description with a comma in it is cut at that comma.
   */
  lemma ParseFieldLine(fields: seq<string>, trailing: nat, parse: string -> Option<real>, value: real)
    requires |fields| >= 4
    requires forall p :: p in fields ==> ',' !in p
    requires fields[|fields| - 1] != []
    requires parse(Trim(fields[2])) == Some(value)
    ensures ParseLine(Join(fields + seq(trailing, _ => ""), ','), parse)
            == Parsed(Plain(Trim(fields[0]), Trim(fields[1]), value, Trim(fields[3])))
  {
    JavaSplitTrailingEmpty(fields, trailing, ',');
  }

  /** A description with a comma in it keeps only the text before the comma. */
  lemma CommaCutsDescription(parse: string -> Option<real>)
    requires parse("300.0") == Some(300.0)
    ensures ParseLine(Join(["Rome", "Italy", "300.0", "Ancient", "capital"], ','), parse)
            == Parsed(Plain("Rome", "Italy", 300.0, "Ancient"))
  {
    var fields := ["Rome", "Italy", "300.0", "Ancient", "capital"];
    assert forall p :: p in fields ==> ',' !in p;
    assert fields + seq(0, _ => "") == fields;
    ParseFieldLine(fields, 0, parse, 300.0);
  }

  /** A line whose last field is empty loses that field to split, so a line that ends right after its third comma is skipped. */
  lemma EmptyLastFieldSkipped(name: string, country: string, cost: string,
                              parse: string -> Option<real>)
    requires ',' !in name && ',' !in country && ',' !in cost
    ensures ParseLine(name + "," + country + "," + cost + ",", parse) == Skip
  {
    var fields: seq<string> := [name, country, cost, []];
    var line := name + "," + country + "," + cost + ",";
    assert Join(fields[2..], ',') == cost + ",";
    assert Join(fields[1..], ',') == country + "," + cost + ",";
    assert Join(fields, ',') == line;
    SplitAllJoin(fields, ',');
    assert line[|name|] == ',';
    DropTrailingEmptyPrefix(fields);
  }

  /** A line without a comma is a single field and is passed over. */
  lemma NoCommaSkipped(line: string, parse: string -> Option<real>)
    requires ',' !in line
    ensures ParseLine(line, parse) == Skip
  {
  }

  /** The outcome of importing a sequence of lines: what was appended, and whether it stopped early. */
  datatype ImportResult = ImportResult(added: seq<Destination>, outcome: Outcome<PlannerException>)

  /**
   * Importing lines in order: skipped lines add nothing, parsed lines add their
   * destination, and the first line with a bad cost ends the import with the
   * destinations before it kept.
   */
  function Import(lines: seq<string>, parse: string -> Option<real>): (r: ImportResult)
    ensures |r.added| <= |lines|
    ensures forall d :: d in r.added ==> d.Plain?
  {
    if lines == [] then ImportResult([], Pass)
    else
      var prev := Import(lines[..|lines| - 1], parse);
      if prev.outcome.Fail? then prev
      else
        match ParseLine(lines[|lines| - 1], parse)
        case Skip => prev
        case Parsed(d) => ImportResult(prev.added + [d], Pass)
        case BadNumber(input) => ImportResult(prev.added, Fail(NumberFormat(input)))
  }

  /** An import fails exactly when one of its lines has four fields and a cost that does not parse. */
  lemma ImportFailsOnBadLine(lines: seq<string>, parse: string -> Option<real>)
    ensures Import(lines, parse).outcome.Pass? <==> forall k :: 0 <= k < |lines| ==> !ParseLine(lines[k], parse).BadNumber?
  {
    if Import(lines, parse).outcome.Pass? {
      ImportPassHasNoBadLine(lines, parse);
    } else {
      ImportFailureHasBadLine(lines, parse);
    }
  }

  /** After an import that did not fail, no line had a bad cost. */
  lemma ImportPassHasNoBadLine(lines: seq<string>, parse: string -> Option<real>)
    requires Import(lines, parse).outcome.Pass?
    ensures forall k :: 0 <= k < |lines| ==> !ParseLine(lines[k], parse).BadNumber?
  {
    forall k | 0 <= k < |lines|
      ensures !ParseLine(lines[k], parse).BadNumber?
    {
      if Import(lines[..k], parse).outcome.Fail? {
        ImportStopsAtFailure(lines, k, parse);
      } else {
        ImportStep(lines, k, parse);
        if Import(lines[..k + 1], parse).outcome.Fail? {
          ImportStopsAtFailure(lines, k + 1, parse);
        }
      }
    }
  }

  /** An import that failed had a line with a bad cost. */
  lemma {:induction false} ImportFailureHasBadLine(lines: seq<string>, parse: string -> Option<real>)
    requires Import(lines, parse).outcome.Fail?
    ensures exists k :: 0 <= k < |lines| && ParseLine(lines[k], parse).BadNumber?
  {
    var init := lines[..|lines| - 1];
    if Import(init, parse).outcome.Fail? {
      ImportFailureHasBadLine(init, parse);
      var k :| 0 <= k < |init| && ParseLine(init[k], parse).BadNumber?;
      assert lines[k] == init[k];
    } else {
      assert ParseLine(lines[|lines| - 1], parse).BadNumber?;
    }
  }

  /** Importing one more line, after a prefix that did not fail. */
  lemma ImportStep(lines: seq<string>, i: nat, parse: string -> Option<real>)
    requires i < |lines|
    requires Import(lines[..i], parse).outcome.Pass?
    ensures Import(lines[..i + 1], parse) ==
            match ParseLine(lines[i], parse)
            case Skip => Import(lines[..i], parse)
            case Parsed(d) => ImportResult(Import(lines[..i], parse).added + [d], Pass)
            case BadNumber(input) => ImportResult(Import(lines[..i], parse).added, Fail(NumberFormat(input)))
  {
    assert lines[..i + 1][..i] == lines[..i];
  }

  /** Once a prefix of the lines has failed, the lines after it change nothing. */
  lemma {:induction false} ImportStopsAtFailure(lines: seq<string>, n: nat, parse: string -> Option<real>)
    requires n <= |lines|
    requires Import(lines[..n], parse).outcome.Fail?
    ensures Import(lines, parse) == Import(lines[..n], parse)
  {
    if n < |lines| {
      var shorter := lines[..|lines| - 1];
      assert shorter[..n] == lines[..n];
      ImportStopsAtFailure(shorter, n, parse);
    } else {
      assert lines[..n] == lines;
    }
  }

  /** When no line fails, every line with at least four fields contributes exactly one destination. */
  lemma {:induction false} ImportCountsFieldLines(lines: seq<string>, parse: string -> Option<real>)
    requires Import(lines, parse).outcome.Pass?
    ensures |Import(lines, parse).added| == FieldLines(lines)
  {
    if lines != [] {
      ImportCountsFieldLines(lines[..|lines| - 1], parse);
    }
  }

  /** The number of lines with at least four fields. */
  function FieldLines(lines: seq<string>): nat
  {
    if lines == [] then 0
    else FieldLines(lines[..|lines| - 1]) + (if |JavaSplit(lines[|lines| - 1], ',')| >= 4 then 1 else 0)
  }

  // ---------------------------------------------------------------------------
  // The catalogue
  // ---------------------------------------------------------------------------

  class LocationList {
    /** The catalogue in menu order; it only ever grows. */
    var destinations: seq<Destination>

    constructor ()
      ensures destinations == DefaultDestinations()
    {
      destinations := [];
      new;
      LoadDefaultDestinations();
    }

    method LoadDefaultDestinations()
      modifies this
      ensures destinations == old(destinations) + DefaultDestinations()
    {
      destinations := destinations + [City("Paris", "France", 500.0, "The City of Light with iconic landmarks")];
      destinations := destinations + [City("Tokyo", "Japan", 600.0, "Modern metropolis with rich culture")];
      destinations := destinations + [City("New York", "USA", 700.0, "The city that never sleeps")];
      destinations := destinations + [Tour("Bali", "Indonesia", 400.0,
                                           "Tropical paradise with beaches and temples", 7, "Beach & Culture")];
      destinations := destinations + [Tour("Swiss Alps", "Switzerland", 800.0,
                                           "Mountain adventure with stunning views", 5, "Adventure")];
      destinations := destinations + [Tour("Dubai", "UAE", 900.0,
                                           "Luxury and modern architecture", 4, "Luxury")];
    }

    /** The destination at a zero-based index, or RouteNotFound outside the catalogue. */
    function GetDestination(index: int): (r: Result<Destination, PlannerException>)
      reads this
      ensures r.Failure? <==> index < 0 || index >= |destinations|
      ensures r.Success? ==> r.value == destinations[index]
      ensures r.Failure? ==> r.error == RouteNotFound(RouteNotFoundPrefix + IntToString(index))
    {
      if index < 0 || index >= |destinations| then
        Failure(RouteNotFound(RouteNotFoundPrefix + IntToString(index)))
      else
        Success(destinations[index])
    }

    /**
     * One pass of the read loop, on line i after lines 0 to i - 1 were read
     * without a failure: the line's destination, if any, goes at the end.
     */
    method LoadLine(lines: seq<string>, i: nat, parse: string -> Option<real>, ghost before: seq<Destination>)
      returns (outcome: Outcome<PlannerException>)
      requires i < |lines| && Import(lines[..i], parse).outcome.Pass?
      requires destinations == before + Import(lines[..i], parse).added
      modifies this
      ensures destinations == before + Import(lines[..i + 1], parse).added
      ensures outcome == Import(lines[..i + 1], parse).outcome
    {
      ImportStep(lines, i, parse);
      var step := ParseLine(lines[i], parse);
      outcome := Pass;
      if step.Parsed? {
        destinations := destinations + [step.dest];
      } else if step.BadNumber? {
        outcome := Fail(NumberFormat(step.input));
      }
    }

    /**
     * The read loop of loadFromFile over lines already read from the file: one
     * plain destination per line with at least four fields, stopping at the first
     * cost that does not parse.
     */
    method LoadLines(lines: seq<string>, parse: string -> Option<real>) returns (outcome: Outcome<PlannerException>)
      modifies this
      ensures destinations == old(destinations) + Import(lines, parse).added
      ensures outcome == Import(lines, parse).outcome
      ensures old(destinations) <= destinations
    {
      var i := 0;
      while i < |lines|
        invariant 0 <= i <= |lines|
        invariant Import(lines[..i], parse).outcome.Pass?
        invariant destinations == old(destinations) + Import(lines[..i], parse).added
      {
        outcome := LoadLine(lines, i, parse, old(destinations));
        if outcome.Fail? {
          ImportStopsAtFailure(lines, i + 1, parse);
          return;
        }
        i := i + 1;
      }
      assert lines[..i] == lines;
      outcome := Pass;
    }
  }
}
