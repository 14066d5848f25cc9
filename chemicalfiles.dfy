/** What the one-molecule-per-line text formats share: molecules with a
    name, the line-format parser and writer they delegate to, the file of
    molecules they fill or print, the text device, and the record line. */
module ChemicalFiles {
  import opened Options
  import opened QtText

  /** A molecule as the file formats see it: a structure the line format
      understands, and a name. The geometry optimizer's `Molecules.Molecule`
      is the same chemkit class seen through its atoms; the file formats only
      pass the structure between the line format and the file, so they keep
      it abstract. */
  datatype NamedStructure<S> = NamedStructure(structure: S, name: string)

  /** A LineFormat plugin ("smiles", "inchi"): `read` parses one identifier
      and may reject it, `write` prints a molecule's identifier. */
  datatype LineFormat<!S> = LineFormat(read: string -> Option<NamedStructure<S>>, write: NamedStructure<S> -> string)

  /** LineFormat::create: a format name is registered or not. */
  type LineFormats<!S> = string -> Option<LineFormat<S>>

  /** What a reader takes from one line: the identifier handed to the line
      format, and the name to set, if any. */
  datatype LineFields = LineFields(identifier: string, name: Option<string>)

  /** The molecule one line contributes: none when the line has no fields
      or the parser rejects its identifier; otherwise the parsed molecule,
      renamed when the line carries a name. */
  function ReadRecord<S>(format: LineFormat<S>, fields: Option<LineFields>): (r: Option<NamedStructure<S>>)
    ensures r.Some? <==> fields.Some? && format.read(fields.value.identifier).Some?
    ensures r.Some? ==> r.value.structure == format.read(fields.value.identifier).value.structure
    ensures r.Some? ==>
      (r.value.name == if fields.value.name.Some? then fields.value.name.value
                       else format.read(fields.value.identifier).value.name)
  {
    match fields
    case None => None
    case Some(f) =>
      match format.read(f.identifier)
      case None => None
      case Some(m) => Some(if f.name.Some? then m.(name := f.name.value) else m)
  }

  /** The value of `m` as a sequence of at most one element. */
  function Listed<T>(m: Option<T>): (r: seq<T>)
    ensures |r| <= 1 && (r != [] <==> m.Some?) && (m.Some? ==> r[0] == m.value)
  {
    if m.Some? then [m.value] else []
  }

  /** The molecules a reader appends for `lines`, in line order. */
  function ReadLines<S>(format: LineFormat<S>, fieldsOf: string -> Option<LineFields>, lines: seq<string>): (r: seq<NamedStructure<S>>)
    ensures |r| <= |lines|
  {
    if lines == [] then []
    else
      Listed(ReadRecord(format, fieldsOf(lines[0]))) + ReadLines(format, fieldsOf, lines[1..])
  }

  /** One more line in front contributes its molecule, if any, in front. */
  lemma ReadLinesCons<S>(format: LineFormat<S>, fieldsOf: string -> Option<LineFields>, line: string, lines: seq<string>)
    ensures ReadLines(format, fieldsOf, [line] + lines) ==
      Listed(ReadRecord(format, fieldsOf(line))) + ReadLines(format, fieldsOf, lines)
  {
    assert ([line] + lines)[0] == line && ([line] + lines)[1..] == lines;
  }

  /** Reading two stretches of lines appends what each one gives, in order. */
  lemma {:induction false} ReadLinesAppend<S>(format: LineFormat<S>, fieldsOf: string -> Option<LineFields>,
                                              a: seq<string>, b: seq<string>)
    ensures ReadLines(format, fieldsOf, a + b) == ReadLines(format, fieldsOf, a) + ReadLines(format, fieldsOf, b)
  {
    if a == [] {
      assert a + b == b;
    } else {
      assert (a + b)[0] == a[0] && (a + b)[1..] == a[1..] + b;
      ReadLinesAppend(format, fieldsOf, a[1..], b);
    }
  }

  /** The line written for one molecule: identifier, then a space and the
      name only when the name is non-empty, then a line feed. */
  function RecordLine(identifier: string, name: string): (r: string)
    ensures |r| == |identifier| + (if name == [] then 0 else 1 + |name|) + 1
    ensures r[..|identifier|] == identifier && r[|r| - 1] == '\n'
  {
    identifier + (if name != [] then " " + name else []) + "\n"
  }

  /** The whole text written for `molecules`, in file order. */
  function WrittenText<S>(format: LineFormat<S>, molecules: seq<NamedStructure<S>>): (r: string)
    ensures molecules != [] ==> r != [] && r[|r| - 1] == '\n'
  {
    if molecules == [] then []
    else RecordLine(format.write(molecules[0]), molecules[0].name) + WrittenText(format, molecules[1..])
  }

  /** Regrouping of appended sequences, used as a solver hint by `ReadRecords`. */
  lemma Shift<T>(read: seq<T>, found: seq<T>, rest: seq<T>, whole: seq<T>, total: seq<T>)
    requires read + whole == total && whole == found + rest
    ensures (read + found) + rest == total
  {
  }

  /** One pass of the reading loop on a line's fields: nothing when there
      are none or the line format rejects the identifier; otherwise the
      parsed molecule, renamed when the line carries a name, is appended. */
  method AddRecord<S>(file: MoleculeFile<S>, format: LineFormat<S>, fields: Option<LineFields>)
    modifies file
    ensures file.molecules == old(file.molecules) + Listed(ReadRecord(format, fields))
  {
    if fields.None? {
      return;
    }
    var molecule := format.read(fields.value.identifier);
    if molecule.None? {
      return;
    }
    var m := molecule.value;
    if fields.value.name.Some? {
      m := m.(name := fields.value.name.value);
    }
    file.AddMolecule(m);
  }

  /** The reading loop both line-record formats run: until `device` is at
      its end, read a line, take its fields, skip it when it has none or the
      line format rejects the identifier, otherwise append its molecule. */
  method ReadRecords<S>(device: Device, file: MoleculeFile<S>, format: LineFormat<S>,
                        fieldsOf: string -> Option<LineFields>)
    requires device.Valid()
    modifies device, file
    ensures device.Valid() && device.AtEnd() && device.data == old(device.data)
    ensures file.molecules == old(file.molecules) + ReadLines(format, fieldsOf, Lines(old(device.data[device.pos..])))
  {
    ghost var text := device.data[device.pos..];
    ghost var before := file.molecules;
    ghost var pending := Lines(text);
    while !device.AtEnd()
      invariant device.Valid() && device.data == old(device.data)
      invariant pending == Lines(device.data[device.pos..])
      invariant file.molecules + ReadLines(format, fieldsOf, pending) == before + ReadLines(format, fieldsOf, Lines(text))
      decreases |device.data| - device.pos
    {
      ghost var read := file.molecules;
      var line := device.ReadLine();
      ghost var next := Lines(device.data[device.pos..]);
      ReadLinesCons(format, fieldsOf, line, next);
      AddRecord(file, format, fieldsOf(line));
      Shift(read, Listed(ReadRecord(format, fieldsOf(line))), ReadLines(format, fieldsOf, next),
            ReadLines(format, fieldsOf, pending), before + ReadLines(format, fieldsOf, Lines(text)));
      pending := next;
    }
    assert device.data[device.pos..] == [];
  }

  /** Writes one record line to `device`: the identifier, a space and the
      name when the name is non-empty, and a line feed. */
  method WriteRecord(device: Device, identifier: string, name: string)
    modifies device
    ensures device.data == old(device.data) + RecordLine(identifier, name) && device.pos == old(device.pos)
  {
    device.Write(identifier);
    if name != [] {
      device.Write(" ");
      device.Write(name);
    }
    device.Write("\n");
  }

  /** The writing loop both line-record formats run: one record line per
      molecule, in order. */
  method WriteRecords<S>(device: Device, format: LineFormat<S>, molecules: seq<NamedStructure<S>>)
    modifies device
    ensures device.data == old(device.data) + WrittenText(format, molecules) && device.pos == old(device.pos)
  {
    for i := 0 to |molecules|
      invariant device.pos == old(device.pos)
      invariant device.data == old(device.data) + WrittenText(format, molecules[..i])
    {
      var molecule := molecules[i];
      WriteRecord(device, format.write(molecule), molecule.name);
      assert molecules[..i + 1] == molecules[..i] + [molecule];
      WrittenTextSnoc(format, molecules[..i], molecule);
    }
    assert molecules[..|molecules|] == molecules;
  }

  /** Writing one more molecule appends its record line. */
  lemma {:induction false} WrittenTextSnoc<S>(format: LineFormat<S>, molecules: seq<NamedStructure<S>>, m: NamedStructure<S>)
    ensures WrittenText(format, molecules + [m]) == WrittenText(format, molecules) + RecordLine(format.write(m), m.name)
  {
    if molecules == [] {
      assert [m][1..] == [];
    } else {
      assert (molecules + [m])[0] == molecules[0] && (molecules + [m])[1..] == molecules[1..] + [m];
      WrittenTextSnoc(format, molecules[1..], m);
    }
  }

  /** A record line whose parts hold no line feed is read back as one line. */
  lemma RecordLineIsLine(identifier: string, name: string)
    requires '\n' !in identifier && '\n' !in name
    ensures var line := RecordLine(identifier, name);
      line != [] && line[|line| - 1] == '\n' && '\n' !in line[..|line| - 1]
  {
    var line := RecordLine(identifier, name);
    assert line[..|line| - 1] == identifier + (if name != [] then " " + name else []);
  }

  /** Reading back the text written for `molecules` gives `molecules`,
      provided each record line is read back as the molecule it was written for. */
  lemma {:induction false} ReadWrittenText<S>(format: LineFormat<S>, fieldsOf: string -> Option<LineFields>,
                                              molecules: seq<NamedStructure<S>>)
    requires forall k :: 0 <= k < |molecules| ==>
      '\n' !in format.write(molecules[k]) && '\n' !in molecules[k].name
    requires forall k :: 0 <= k < |molecules| ==>
      ReadRecord(format, fieldsOf(RecordLine(format.write(molecules[k]), molecules[k].name))) == Some(molecules[k])
    ensures ReadLines(format, fieldsOf, Lines(WrittenText(format, molecules))) == molecules
  {
    if molecules != [] {
      var m := molecules[0];
      var line := RecordLine(format.write(m), m.name);
      var rest := WrittenText(format, molecules[1..]);
      RecordLineIsLine(format.write(m), m.name);
      LinesAfter(line, rest);
      ReadWrittenText(format, fieldsOf, molecules[1..]);
      var lines := [line] + Lines(rest);
      assert lines[0] == line && lines[1..] == Lines(rest);
    }
  }

  /** The molecule file a reader appends to (MoleculeFile::addMolecule). */
  class MoleculeFile<S> {
    var molecules: seq<NamedStructure<S>>

    constructor ()
      ensures molecules == []
    {
      molecules := [];
    }

    method AddMolecule(m: NamedStructure<S>)
      modifies this
      ensures molecules == old(molecules) + [m]
    {
      molecules := molecules + [m];
    }
  }

  /** A text device: reading consumes `data` from `pos` a line at a time,
      writing appends to `data`. */
  class Device {
    var data: string
    var pos: nat

    constructor (data: string)
      ensures this.data == data && pos == 0
    {
      this.data := data;
      pos := 0;
    }

    ghost predicate Valid()
      reads this
    {
      pos <= |data|
    }

    /** QIODevice::atEnd: no text is left to read. */
    predicate AtEnd()
      reads this
      ensures Valid() ==> (AtEnd() <==> Lines(data[pos..]) == [])
    {
      pos >= |data|
    }

    /** QIODevice::readLine: the next line, line feed included; empty at the end. */
    method ReadLine() returns (line: string)
      requires Valid()
      modifies this
      ensures Valid() && data == old(data)
      ensures old(AtEnd()) ==> line == [] && pos == old(pos)
      ensures !old(AtEnd()) ==> pos > old(pos)
      ensures !old(AtEnd()) ==> Lines(old(data[pos..])) == [line] + Lines(data[pos..])
    {
      if pos == |data| {
        return [];
      }
      var n := LineLength(data[pos..]);
      line := data[pos..pos + n];
      assert data[pos..][..n] == line && data[pos..][n..] == data[pos + n..];
      pos := pos + n;
    }

    method Write(s: string)
      modifies this
      ensures data == old(data) + s && pos == old(pos)
    {
      data := data + s;
    }
  }
}
