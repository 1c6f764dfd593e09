/** The star-system editor: the resource and consumption lists of the form,
    the CSV import that turns each line into a record, and the CSV export. */
module StarSystemManagement {
  import opened Util
  import opened Text
  import opened Geometry
  import opened StarSystems

  /** `newResource`: the fields of the resource being added. */
  datatype ResourceDraft = ResourceDraft(name: string, availability: real, price: real)

  const EmptyResourceDraft: ResourceDraft := ResourceDraft("", 0.0, 0.0)
  const EmptyConsumptionDraft: Consumption := Consumption("", 0.0)

  /** The check `addResource` makes: a name, availability >= 0, price >= 0. */
  predicate ResourceDraftAccepted(d: ResourceDraft) {
    d.name != "" && d.availability >= 0.0 && d.price >= 0.0
  }

  /** The check `addConsumption` makes: a resource name and amount >= 0. */
  predicate ConsumptionDraftAccepted(c: Consumption) {
    c.resourceName != "" && c.amount >= 0.0
  }

  /** `{ ...newResource }`: the copy carries no weight. */
  function FromDraft(d: ResourceDraft): Resource {
    Resource(d.name, d.availability, d.price, None)
  }

  /** `list.filter((_, i) => i !== index)` over the positions from `from` on. */
  function DropPosition<T>(s: seq<T>, index: int, from: int): (r: seq<T>)
    ensures |r| <= |s|
  {
    if s == [] then []
    else (if from == index then [] else [s[0]]) + DropPosition(s[1..], index, from + 1)
  }

  /** `list.filter((_, i) => i !== index)`. */
  function WithoutIndex<T>(s: seq<T>, index: int): seq<T> {
    DropPosition(s, index, 0)
  }

  lemma {:induction false} DropPositionSplice<T>(s: seq<T>, index: int, from: int)
    ensures DropPosition(s, index, from)
            == if from <= index < from + |s| then s[..index - from] + s[index - from + 1..] else s
  {
    if s != [] {
      DropPositionSplice(s[1..], index, from + 1);
      if from == index {
        assert s[..0] + s[1..] == s[1..];
      } else if from < index < from + |s| {
        var i := index - from;
        assert [s[0]] + (s[1..][..i - 1] + s[1..][i..]) == s[..i] + s[i + 1..];
      } else {
        assert [s[0]] + s[1..] == s;
      }
    }
  }

  /** Removing by index drops exactly the element at `index` and keeps the
      rest in order; an index outside the list removes nothing. */
  lemma WithoutIndexSplice<T>(s: seq<T>, index: int)
    ensures 0 <= index < |s| ==> WithoutIndex(s, index) == s[..index] + s[index + 1..]
    ensures 0 <= index < |s| ==> |WithoutIndex(s, index)| == |s| - 1
    ensures !(0 <= index < |s|) ==> WithoutIndex(s, index) == s
    ensures forall x :: x in WithoutIndex(s, index) ==> x in s
  {
    DropPositionSplice(s, index, 0);
    if 0 <= index < |s| {
      forall x | x in s[..index] + s[index + 1..] ensures x in s {
        var k :| 0 <= k < |s[..index] + s[index + 1..]| && (s[..index] + s[index + 1..])[k] == x;
        if k < index { assert x == s[k]; } else { assert x == s[k + 1]; }
      }
    }
  }

  /** What the form's lists hold when every entry came through the add
      handlers: each entry passed the handler's check. */
  predicate FormEntriesAccepted(resources: seq<Resource>, consumption: seq<Consumption>) {
    && (forall k :: 0 <= k < |resources| ==>
          resources[k].name != "" && resources[k].availability >= 0.0 && resources[k].price >= 0.0)
    && (forall k :: 0 <= k < |consumption| ==> ValidConsumption(consumption[k]))
  }

  /** The resource and consumption lists of `formData`, with the two drafts. */
  class SystemForm {
    var resources: seq<Resource>
    var consumption: seq<Consumption>
    var newResource: ResourceDraft
    var newConsumption: Consumption

    predicate Valid()
      reads this
    {
      FormEntriesAccepted(resources, consumption)
    }

    /** The empty form of `resetForm`. */
    constructor ()
      ensures resources == [] && consumption == []
      ensures newResource == EmptyResourceDraft && newConsumption == EmptyConsumptionDraft
      ensures Valid()
    {
      resources := [];
      consumption := [];
      newResource := EmptyResourceDraft;
      newConsumption := EmptyConsumptionDraft;
    }

    /** `addResource`: an accepted draft is appended and the draft cleared;
        otherwise nothing changes. */
    method AddResource()
      requires Valid()
      modifies this
      ensures Valid()
      ensures ResourceDraftAccepted(old(newResource)) ==>
                resources == old(resources) + [FromDraft(old(newResource))] && newResource == EmptyResourceDraft
      ensures !ResourceDraftAccepted(old(newResource)) ==>
                resources == old(resources) && newResource == old(newResource)
      ensures consumption == old(consumption) && newConsumption == old(newConsumption)
    {
      if ResourceDraftAccepted(newResource) {
        resources := resources + [FromDraft(newResource)];
        newResource := EmptyResourceDraft;
      }
    }

    /** `removeResource(index)`. */
    method RemoveResource(index: int)
      requires Valid()
      modifies this
      ensures Valid()
      ensures resources == WithoutIndex(old(resources), index)
      ensures consumption == old(consumption)
      ensures newResource == old(newResource) && newConsumption == old(newConsumption)
    {
      WithoutIndexSplice(resources, index);
      resources := WithoutIndex(resources, index);
    }

    /** `addConsumption`: an accepted draft is appended and the draft
        cleared; otherwise nothing changes. */
    method AddConsumption()
      requires Valid()
      modifies this
      ensures Valid()
      ensures ConsumptionDraftAccepted(old(newConsumption)) ==>
                consumption == old(consumption) + [old(newConsumption)] && newConsumption == EmptyConsumptionDraft
      ensures !ConsumptionDraftAccepted(old(newConsumption)) ==>
                consumption == old(consumption) && newConsumption == old(newConsumption)
      ensures resources == old(resources) && newResource == old(newResource)
    {
      if ConsumptionDraftAccepted(newConsumption) {
        consumption := consumption + [newConsumption];
        newConsumption := EmptyConsumptionDraft;
      }
    }

    /** `removeConsumption(index)`. */
    method RemoveConsumption(index: int)
      requires Valid()
      modifies this
      ensures Valid()
      ensures consumption == WithoutIndex(old(consumption), index)
      ensures resources == old(resources)
      ensures newResource == old(newResource) && newConsumption == old(newConsumption)
    {
      WithoutIndexSplice(consumption, index);
      consumption := WithoutIndex(consumption, index);
    }
  }

  /** What `parseFloat` returns: a number or NaN. */
  datatype Parsed = NaN | Finite(value: real)

  /** The two JavaScript conversions the importer relies on: `parseFloat`
      and `isNaN` applied to a string (which converts it with `Number`). */
  datatype NumberSyntax = NumberSyntax(parseFloat: string -> Parsed, isNaN: string -> bool)

  /** `values[index]`: the cell, or `undefined` past the end of the line. */
  datatype Cell = Absent | Present(text: string)

  /** A field of an imported record. */
  datatype Field = Undefined | Str(s: string) | Number(n: Parsed) | Coords(c: Coordinate)

  type Record = map<string, Field>

  function CellAt(values: seq<string>, index: nat): (c: Cell)
    ensures c.Present? <==> index < |values|
  {
    if index < |values| then Present(values[index]) else Absent
  }

  /** `parseFloat(cell) || 0`: NaN, and `parseFloat(undefined)`, become 0. */
  function CoordinatePart(num: NumberSyntax, c: Cell): real {
    match c
    case Absent => 0.0
    case Present(s) => if num.parseFloat(s).Finite? then num.parseFloat(s).value else 0.0
  }

  /** `isNaN(cell) ? cell : parseFloat(cell)`; `isNaN(undefined)` holds, so a
      missing cell stays `undefined`. */
  function Value(num: NumberSyntax, c: Cell): Field {
    match c
    case Absent => Undefined
    case Present(s) => if num.isNaN(s) then Str(s) else Number(num.parseFloat(s))
  }

  /** What the header at position `index` writes into the record. */
  function HeaderValue(num: NumberSyntax, header: string, values: seq<string>, index: nat): Field {
    if header == "coordinates" then
      Coords(Coordinate(CoordinatePart(num, CellAt(values, index)),
                        CoordinatePart(num, CellAt(values, index + 1)),
                        CoordinatePart(num, CellAt(values, index + 2))))
    else Value(num, CellAt(values, index))
  }

  /** The record after the `headers.forEach` loop has visited every header,
      writing one key per header in turn. */
  function RowRecord(num: NumberSyntax, headers: seq<string>, values: seq<string>): Record
  {
    if headers == [] then map[]
    else
      var n := |headers| - 1;
      RowRecord(num, headers[..n], values)[headers[n] := HeaderValue(num, headers[n], values, n)]
  }

  /** The record has one key per distinct header. */
  lemma {:induction false} RowRecordKeys(num: NumberSyntax, headers: seq<string>, values: seq<string>)
    ensures forall h :: h in RowRecord(num, headers, values) <==> h in headers
  {
    if headers != [] {
      var n := |headers| - 1;
      RowRecordKeys(num, headers[..n], values);
      assert headers == headers[..n] + [headers[n]];
    }
  }

  /** A header repeated in the line is written last by its final
      occurrence: the value under a key is the one its last position gives. */
  lemma {:induction false} RowRecordLastWins(num: NumberSyntax, headers: seq<string>, values: seq<string>, i: nat)
    requires i < |headers|
    requires forall j :: i < j < |headers| ==> headers[j] != headers[i]
    ensures headers[i] in RowRecord(num, headers, values)
    ensures RowRecord(num, headers, values)[headers[i]] == HeaderValue(num, headers[i], values, i)
  {
    var n := |headers| - 1;
    if i < n {
      var prefix := headers[..n];
      assert forall j :: i < j < |prefix| ==> prefix[j] == headers[j];
      RowRecordLastWins(num, prefix, values, i);
    }
  }

  /** A `coordinates` header reads the three cells from its position on,
      each 0 when missing or not a number. */
  lemma CoordinatesHeader(num: NumberSyntax, headers: seq<string>, values: seq<string>, i: nat)
    requires i < |headers| && headers[i] == "coordinates"
    requires forall j :: i < j < |headers| ==> headers[j] != "coordinates"
    ensures "coordinates" in RowRecord(num, headers, values)
    ensures var c := RowRecord(num, headers, values)["coordinates"];
            && c.Coords?
            && c.c.x == (if i < |values| && num.parseFloat(values[i]).Finite? then num.parseFloat(values[i]).value else 0.0)
            && c.c.y == (if i + 1 < |values| && num.parseFloat(values[i + 1]).Finite? then num.parseFloat(values[i + 1]).value else 0.0)
            && c.c.z == (if i + 2 < |values| && num.parseFloat(values[i + 2]).Finite? then num.parseFloat(values[i + 2]).value else 0.0)
  {
    RowRecordLastWins(num, headers, values, i);
  }

  /** Visiting one more header writes its value over the record so far. */
  lemma RowRecordStep(num: NumberSyntax, headers: seq<string>, values: seq<string>, i: nat)
    requires i < |headers|
    ensures RowRecord(num, headers[..i + 1], values)
            == RowRecord(num, headers[..i], values)[headers[i] := HeaderValue(num, headers[i], values, i)]
  {
    assert headers[..i + 1][..i] == headers[..i];
  }

  /** `line.split(',').map(v => v.trim())`. */
  function Cells(line: string): (cells: seq<string>)
    ensures |cells| == |Split(line, ',')|
    ensures forall k :: 0 <= k < |cells| ==> cells[k] == Trim(Split(line, ',')[k])
  {
    var pieces := Split(line, ',');
    seq(|pieces|, k requires 0 <= k < |pieces| => Trim(pieces[k]))
  }

  /** The body of the `headers.forEach` callback: the `coordinates` header
      reads three consecutive cells, any other header one. */
  method ParseField(num: NumberSyntax, header: string, values: seq<string>, index: nat) returns (field: Field)
    ensures field == HeaderValue(num, header, values, index)
    ensures header == "coordinates" <==> field.Coords?
  {
    if header == "coordinates" {
      field := Coords(Coordinate(CoordinatePart(num, CellAt(values, index)),
                                 CoordinatePart(num, CellAt(values, index + 1)),
                                 CoordinatePart(num, CellAt(values, index + 2))));
    } else {
      field := Value(num, CellAt(values, index));
    }
  }

  /** The body of the `map` callback: an empty record filled header by
      header. */
  method ParseRow(num: NumberSyntax, headers: seq<string>, line: string) returns (system: Record)
    ensures system == RowRecord(num, headers, Cells(line))
  {
    var values := Cells(line);
    system := FillRecord(num, headers, values);
  }

  /** The `headers.forEach` loop over the trimmed cells of one line. */
  method FillRecord(num: NumberSyntax, headers: seq<string>, values: seq<string>) returns (system: Record)
    ensures system == RowRecord(num, headers, values)
  {
    system := map[];
    var index := 0;
    while index < |headers|
      invariant 0 <= index <= |headers|
      invariant system == RowRecord(num, headers[..index], values)
    {
      var header := headers[index];
      RowRecordStep(num, headers, values, index);
      var field := ParseField(num, header, values, index);
      system := system[header := field];
      index := index + 1;
    }
    assert headers[..index] == headers;
  }

  /** JavaScript truthiness of a field. */
  predicate Truthy(f: Field) {
    match f
    case Undefined => false
    case Str(s) => s != ""
    case Number(n) => n.Finite? && n.value != 0.0
    case Coords(_) => true
  }

  /** `.filter(system => system.name)`. */
  predicate Named(r: Record) {
    "name" in r && Truthy(r["name"])
  }

  function KeepNamed(records: seq<Record>): (kept: seq<Record>)
    ensures |kept| <= |records|
  {
    if records == [] then []
    else (if Named(records[0]) then [records[0]] else []) + KeepNamed(records[1..])
  }

  lemma {:induction false} KeepNamedMembers(records: seq<Record>)
    ensures forall r :: r in KeepNamed(records) <==> r in records && Named(r)
    ensures IsSubsequence(KeepNamed(records), records)
  {
    if records != [] {
      KeepNamedMembers(records[1..]);
      assert records == [records[0]] + records[1..];
      var kept := KeepNamed(records);
      if Named(records[0]) {
        assert kept[0] == records[0] && kept[1..] == KeepNamed(records[1..]);
      } else if kept != [] {
        assert kept == KeepNamed(records[1..]);
      }
    }
  }

  /** The header cells: the first line split on commas and trimmed. */
  function Headers(text: string): seq<string> {
    Cells(Split(text, '\n')[0])
  }

  /** `lines.map(...)`: one record per line, in order. */
  function RowsOf(num: NumberSyntax, headers: seq<string>, lines: seq<string>): (rows: seq<Record>)
    ensures |rows| == |lines|
  {
    if lines == [] then []
    else [RowRecord(num, headers, Cells(lines[0]))] + RowsOf(num, headers, lines[1..])
  }

  lemma {:induction false} RowsOfAt(num: NumberSyntax, headers: seq<string>, lines: seq<string>)
    ensures forall k :: 0 <= k < |lines| ==> RowsOf(num, headers, lines)[k] == RowRecord(num, headers, Cells(lines[k]))
  {
    if lines != [] {
      RowsOfAt(num, headers, lines[1..]);
      forall k | 1 <= k < |lines|
        ensures RowsOf(num, headers, lines)[k] == RowRecord(num, headers, Cells(lines[k]))
      {
        assert RowsOf(num, headers, lines)[k] == RowsOf(num, headers, lines[1..])[k - 1];
        assert lines[1..][k - 1] == lines[k];
      }
    }
  }

  /** The records of the lines after the header. */
  function Rows(num: NumberSyntax, text: string): seq<Record> {
    RowsOf(num, Headers(text), Split(text, '\n')[1..])
  }

  /** The records `handleFileUpload` sends to the server. */
  function ImportRecords(num: NumberSyntax, text: string): seq<Record> {
    KeepNamed(Rows(num, text))
  }

  /** The import keeps, in file order, exactly the records of the lines after
      the header whose `name` is truthy. */
  lemma ImportRecordsMembers(num: NumberSyntax, text: string)
    ensures |ImportRecords(num, text)| <= |Split(text, '\n')| - 1
    ensures IsSubsequence(ImportRecords(num, text), Rows(num, text))
    ensures forall r :: r in ImportRecords(num, text) <==> r in Rows(num, text) && Named(r)
    ensures forall k :: 1 <= k < |Split(text, '\n')| ==>
              var r := RowRecord(num, Headers(text), Cells(Split(text, '\n')[k]));
              Named(r) ==> r in ImportRecords(num, text)
  {
    KeepNamedMembers(Rows(num, text));
    RowsOfTail(num, Headers(text), Split(text, '\n'));
  }

  /** Every line after the first has its record among the rows. */
  lemma RowsOfTail(num: NumberSyntax, headers: seq<string>, lines: seq<string>)
    requires lines != []
    ensures forall k :: 1 <= k < |lines| ==> RowRecord(num, headers, Cells(lines[k])) in RowsOf(num, headers, lines[1..])
  {
    RowsOfAt(num, headers, lines[1..]);
    forall k | 1 <= k < |lines|
      ensures RowRecord(num, headers, Cells(lines[k])) in RowsOf(num, headers, lines[1..])
    {
      assert lines[1..][k - 1] == lines[k];
    }
  }

  /** The column names of the export. */
  const ExportColumns: seq<string> :=
    ["name", "coordinates.x", "coordinates.y", "coordinates.z", "population", "isTradeHub", "economicGrowth"]

  /** The first line of the export: the column names separated by commas. */
  const ExportHeader: string := Join(ExportColumns, ",")

  function ShowBool(b: bool): string {
    if b then "true" else "false"
  }

  /** The seven columns of a system's line; `show` is JavaScript's
      number-to-string conversion. */
  function ExportFields(show: real -> string, s: StarSystem): (fields: seq<string>)
    ensures |fields| == 7
  {
    [s.name, show(s.coordinates.x), show(s.coordinates.y), show(s.coordinates.z),
     show(s.population), ShowBool(s.isTradeHub), show(s.economicGrowth)]
  }

  /** The template line of one system. */
  function ExportRow(show: real -> string, s: StarSystem): string {
    Join(ExportFields(show, s), ",")
  }

  /** The header followed by one line per system. */
  function ExportLines(show: real -> string, systems: seq<StarSystem>): (lines: seq<string>)
    ensures |lines| == |systems| + 1
    ensures lines[0] == ExportHeader
    ensures lines[1..] == ExportRows(show, systems)
  {
    [ExportHeader] + ExportRows(show, systems)
  }

  /** `systems.map(s => ...)`: one template line per system. */
  function ExportRows(show: real -> string, systems: seq<StarSystem>): (rows: seq<string>)
    ensures |rows| == |systems|
    ensures forall k :: 0 <= k < |systems| ==> rows[k] == ExportRow(show, systems[k])
  {
    seq(|systems|, k requires 0 <= k < |systems| => ExportRow(show, systems[k]))
  }

  /** `exportSystems`: the lines joined by newlines. */
  function ExportCsv(show: real -> string, systems: seq<StarSystem>): string {
    Join(ExportLines(show, systems), "\n")
  }

  lemma {:induction false} JoinAvoids(parts: seq<string>, sep: string, c: char)
    requires c !in sep
    requires forall k :: 0 <= k < |parts| ==> c !in parts[k]
    ensures c !in Join(parts, sep)
  {
    if |parts| > 1 {
      JoinAvoids(parts[1..], sep, c);
    }
  }

  /** Each exported line reads back as the system's seven columns when no
      name or number text holds a comma. */
  lemma ExportRowColumns(show: real -> string, s: StarSystem)
    requires ',' !in s.name
    requires forall r :: ',' !in show(r)
    ensures Split(ExportRow(show, s), ',') == ExportFields(show, s)
  {
    var fields := ExportFields(show, s);
    assert "," == [','];
    assert ',' !in ShowBool(s.isTradeHub);
    assert forall k :: 0 <= k < |fields| ==> ',' !in fields[k] by {
      assert ',' !in fields[1] && ',' !in fields[2] && ',' !in fields[3];
      assert ',' !in fields[4] && ',' !in fields[6];
    }
    SplitJoin(fields, ',');
  }

  /** The header splits back into the seven column names. */
  lemma ExportHeaderColumns()
    ensures Split(ExportHeader, ',') == ExportColumns
  {
    var cols := ExportColumns;
    assert "," == [','];
    assert forall k :: 0 <= k < |cols| ==> ',' !in cols[k] by {
      assert ',' !in cols[0] && ',' !in cols[1] && ',' !in cols[2] && ',' !in cols[3];
      assert ',' !in cols[4] && ',' !in cols[5] && ',' !in cols[6];
    }
    SplitJoin(cols, ',');
  }

  /** The header is one line. */
  lemma ExportHeaderSingleLine()
    ensures '\n' !in ExportHeader
  {
    var cols := ExportColumns;
    assert forall k :: 0 <= k < |cols| ==> '\n' !in cols[k] by {
      assert '\n' !in cols[0] && '\n' !in cols[1] && '\n' !in cols[2] && '\n' !in cols[3];
      assert '\n' !in cols[4] && '\n' !in cols[5] && '\n' !in cols[6];
    }
    JoinAvoids(cols, ",", '\n');
  }

  /** A system's line is one line when its name and number texts are. */
  lemma ExportRowSingleLine(show: real -> string, s: StarSystem)
    requires '\n' !in s.name
    requires forall r :: '\n' !in show(r)
    ensures '\n' !in ExportRow(show, s)
  {
    var fields := ExportFields(show, s);
    assert '\n' !in ShowBool(s.isTradeHub);
    assert forall k :: 0 <= k < |fields| ==> '\n' !in fields[k] by {
      assert '\n' !in fields[1] && '\n' !in fields[2] && '\n' !in fields[3];
      assert '\n' !in fields[4] && '\n' !in fields[6];
    }
    JoinAvoids(fields, ",", '\n');
  }

  /** No exported line holds a newline when no name or number text does. */
  lemma ExportLinesAvoidNewline(show: real -> string, systems: seq<StarSystem>)
    requires forall k :: 0 <= k < |systems| ==> '\n' !in systems[k].name
    requires forall r :: '\n' !in show(r)
    ensures forall k :: 0 <= k < |systems| + 1 ==> '\n' !in ExportLines(show, systems)[k]
  {
    var lines := ExportLines(show, systems);
    ExportHeaderSingleLine();
    forall k | 1 <= k < |lines| ensures '\n' !in lines[k] {
      assert lines[k] == ExportRow(show, systems[k - 1]);
      ExportRowSingleLine(show, systems[k - 1]);
    }
  }

  /** Splitting the export on newlines gives back the header and one line per
      system, in order, when no name or number text holds a newline. */
  lemma ExportCsvLines(show: real -> string, systems: seq<StarSystem>)
    requires forall k :: 0 <= k < |systems| ==> '\n' !in systems[k].name
    requires forall r :: '\n' !in show(r)
    ensures Split(ExportCsv(show, systems), '\n') == ExportLines(show, systems)
    ensures |Split(ExportCsv(show, systems), '\n')| == |systems| + 1
    ensures forall k :: 0 <= k < |systems| ==> Split(ExportCsv(show, systems), '\n')[k + 1] == ExportRow(show, systems[k])
  {
    ExportLinesAvoidNewline(show, systems);
    assert "\n" == ['\n'];
    SplitJoin(ExportLines(show, systems), '\n');
  }
}
