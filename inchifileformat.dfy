/** The "inchi" file format: one InChI string per line, optionally followed
    by a one-word molecule name. */
module InchiFileFormat {
  import opened Options
  import opened QtText
  import opened ChemicalFiles

  const InchiFormat := "inchi"
  const NotSupportedError := "InChI line format not supported."

  /** The fields of one line read from the device: those of its trimmed text. */
  function InchiFields(raw: string): (r: Option<LineFields>)
    ensures r.Some?
    ensures Free(r.value.identifier, {' '})
    ensures r.value.name.None? ==> Trimmed(raw, ByteSpace) == r.value.identifier
    ensures r.value.name.Some? ==>
      var line := Trimmed(raw, ByteSpace);
      var k := |r.value.identifier| + 1 + |r.value.name.value|;
      Free(r.value.name.value, {' '}) &&
      k <= |line| && line[..k] == r.value.identifier + " " + r.value.name.value &&
      (k == |line| || line[k] == ' ')
  {
    TrimmedLineFields(Trimmed(raw, ByteSpace))
  }

  /** The fields of a trimmed line. It is split at every single space, keeping
      empty parts, so there is always a first part: a blank line hands the
      empty string to the InChI parser. The identifier is the text up to the
      first space; when there is a space, the name is the text between it and
      the next space or the end of the line. */
  function TrimmedLineFields(line: string): (r: Option<LineFields>)
    ensures r.Some?
    ensures Free(r.value.identifier, {' '})
    ensures r.value.name.None? ==> line == r.value.identifier
    ensures r.value.name.Some? ==>
      var k := |r.value.identifier| + 1 + |r.value.name.value|;
      Free(r.value.name.value, {' '}) &&
      k <= |line| && line[..k] == r.value.identifier + " " + r.value.name.value &&
      (k == |line| || line[k] == ' ')
  {
    var splitLine := Split(line, {' '});
    FirstTwoParts(line);
    if |splitLine| == 0 then None
    else
      var inchi := splitLine[0];
      if |splitLine| >= 2 then Some(LineFields(inchi, Some(splitLine[1])))
      else Some(LineFields(inchi, None))
  }

  /** The first part of a line split at single spaces is the line itself when
      there is no space, and otherwise the second part follows it after one
      space and ends at the next space or at the end. */
  lemma FirstTwoParts(line: string)
    ensures var parts := Split(line, {' '});
      Free(parts[0], {' '}) && (|parts| == 1 ==> line == parts[0])
    ensures var parts := Split(line, {' '});
      |parts| >= 2 ==>
        var k := |parts[0]| + 1 + |parts[1]|;
        Free(parts[1], {' '}) && k <= |line| && line[..k] == parts[0] + " " + parts[1] &&
        (k == |line| || line[k] == ' ')
  {
    SplitPrefix(line, ' ');
  }

  /** A line that is blank once trimmed asks the InChI parser for the empty string. */
  lemma BlankLine(raw: string)
    requires forall i :: 0 <= i < |raw| ==> raw[i] in ByteSpace
    ensures InchiFields(raw) == Some(LineFields([], None))
  {
  }

  /** A molecule the "inchi" format can store faithfully: its InChI string is
      one word, its name has no space or line feed and does not end in white
      space, neither holds a NUL (which the C++ writer and reader stop at),
      and the InChI parser reads the string back as the same structure with
      no name. */
  ghost predicate Storable<S>(format: LineFormat<S>, m: NamedStructure<S>) {
    var inchi := format.write(m);
    inchi != [] && Free(inchi, ByteSpace) &&
    '\0' !in inchi && '\0' !in m.name &&
    Free(m.name, {' ', '\n'}) && (m.name == [] || m.name[|m.name| - 1] !in ByteSpace) &&
    format.read(inchi) == Some(m.(name := []))
  }

  /** The fields of a line are read off the parts of its trimmed text. */
  lemma FieldsOfSplit(raw: string, parts: seq<string>)
    requires Split(Trimmed(raw, ByteSpace), {' '}) == parts
    ensures |parts| >= 1
    ensures InchiFields(raw) == Some(LineFields(parts[0], if |parts| >= 2 then Some(parts[1]) else None))
  {
  }

  /** Trimming a record line removes exactly its line feed, when the line
      neither starts nor ends in white space before it. */
  lemma RecordTrimmed(inchi: string, name: string)
    requires inchi != [] && inchi[0] !in ByteSpace && inchi[|inchi| - 1] !in ByteSpace
    requires name == [] || name[|name| - 1] !in ByteSpace
    ensures name == [] ==> Trimmed(RecordLine(inchi, name), ByteSpace) == inchi
    ensures name != [] ==> Trimmed(RecordLine(inchi, name), ByteSpace) == inchi + [' '] + name
  {
    var text := if name == [] then inchi else inchi + [' '] + name;
    var line := RecordLine(inchi, name);
    assert line == text + ['\n'];
    assert TrimStart(line, ByteSpace) == line by {
      assert line[0] == inchi[0];
    }
    assert TrimEnd(line, ByteSpace) == TrimEnd(text, ByteSpace) by {
      assert line[..|line| - 1] == text;
    }
    assert TrimEnd(text, ByteSpace) == text by {
      assert text[|text| - 1] == if name == [] then inchi[|inchi| - 1] else name[|name| - 1];
    }
  }

  /** The parts of a trimmed record line are the InChI string and the name, if any. */
  lemma RecordSplit(inchi: string, name: string)
    requires inchi != [] && inchi[0] !in ByteSpace && inchi[|inchi| - 1] !in ByteSpace && Free(inchi, {' '})
    requires Free(name, {' '}) && (name == [] || name[|name| - 1] !in ByteSpace)
    ensures Split(Trimmed(RecordLine(inchi, name), ByteSpace), {' '}) == if name == [] then [inchi] else [inchi, name]
  {
    RecordTrimmed(inchi, name);
    if name == [] {
      SplitFree(inchi, {' '});
    } else {
      SplitAfter(inchi, ' ', name, {' '});
      SplitFree(name, {' '});
    }
  }

  /** A written record line yields the InChI string, and the name exactly
      when it is non-empty. */
  lemma LineRoundTrip(inchi: string, name: string)
    requires inchi != [] && Free(inchi, ByteSpace)
    requires Free(name, {' ', '\n'}) && (name == [] || name[|name| - 1] !in ByteSpace)
    ensures InchiFields(RecordLine(inchi, name)) ==
      Some(LineFields(inchi, if name == [] then None else Some(name)))
  {
    assert Free(inchi, {' '}) && Free(name, {' '});
    RecordSplit(inchi, name);
    FieldsOfSplit(RecordLine(inchi, name), if name == [] then [inchi] else [inchi, name]);
  }

  /** The parts of a trimmed record line whose name holds a space. */
  lemma CutSplit(inchi: string, first: string, more: string)
    requires inchi != [] && inchi[0] !in ByteSpace && inchi[|inchi| - 1] !in ByteSpace && Free(inchi, {' '})
    requires Free(first, {' '}) && more != [] && more[|more| - 1] !in ByteSpace
    ensures Split(Trimmed(RecordLine(inchi, first + " " + more), ByteSpace), {' '}) ==
            [inchi] + ([first] + Split(more, {' '}))
  {
    var name := first + [' '] + more;
    assert first + " " + more == name && name[|name| - 1] == more[|more| - 1];
    RecordTrimmed(inchi, name);
    SplitAfter(inchi, ' ', name, {' '});
    SplitAfter(first, ' ', more, {' '});
  }

  /** A name holding a space is cut at it: only its first word is read back,
      and that word is empty when the name starts with a space. */
  lemma NameCutAtSpace(inchi: string, first: string, more: string)
    requires inchi != [] && Free(inchi, ByteSpace)
    requires Free(first, {' ', '\n'}) && Free(more, {'\n'})
    requires more != [] && more[|more| - 1] !in ByteSpace
    ensures InchiFields(RecordLine(inchi, first + " " + more)) == Some(LineFields(inchi, Some(first)))
  {
    assert Free(inchi, {' '}) && Free(first, {' '});
    CutSplit(inchi, first, more);
    FieldsOfSplit(RecordLine(inchi, first + " " + more), [inchi] + ([first] + Split(more, {' '})));
  }

  /** Reading back a written "inchi" file gives the molecules that were written. */
  lemma FileRoundTrip<S>(format: LineFormat<S>, molecules: seq<NamedStructure<S>>)
    requires forall k :: 0 <= k < |molecules| ==> Storable(format, molecules[k])
    ensures ReadLines(format, InchiFields, Lines(WrittenText(format, molecules))) == molecules
  {
    forall k | 0 <= k < |molecules|
      ensures '\n' !in format.write(molecules[k]) && '\n' !in molecules[k].name
      ensures ReadRecord(format, InchiFields(RecordLine(format.write(molecules[k]), molecules[k].name))) == Some(molecules[k])
    {
      var m := molecules[k];
      assert Storable(format, m);
      LineRoundTrip(format.write(m), m.name);
    }
    ReadWrittenText(format, InchiFields, molecules);
  }

  /** The "inchi" file-format plugin. */
  class InchiFileFormat<S> {
    var errorString: string

    constructor ()
      ensures errorString == []
    {
      errorString := [];
    }

    /** Appends to `file` a molecule for each line, up to the end of `device`,
        whose first part the InChI format accepts. */
    method Read(device: Device, file: MoleculeFile<S>, formats: LineFormats<S>) returns (ok: bool)
      requires device.Valid()
      modifies this, device, file
      ensures ok <==> formats(InchiFormat).Some?
      ensures !ok ==> errorString == NotSupportedError && unchanged(device, file)
      ensures ok ==> errorString == old(errorString) && device.Valid() && device.AtEnd() && device.data == old(device.data)
      ensures ok ==>
        file.molecules == old(file.molecules) + ReadLines(formats(InchiFormat).value, InchiFields, Lines(old(device.data[device.pos..])))
    {
      var inchiFormat := formats(InchiFormat);
      if inchiFormat.None? {
        errorString := NotSupportedError;
        return false;
      }
      ReadRecords(device, file, inchiFormat.value, InchiFields);
      return true;
    }

    /** Writes one record line per molecule of `file`, in order. */
    method Write(file: MoleculeFile<S>, device: Device, formats: LineFormats<S>) returns (ok: bool)
      modifies this, device
      ensures ok <==> formats(InchiFormat).Some?
      ensures !ok ==> errorString == NotSupportedError && unchanged(device)
      ensures ok ==> errorString == old(errorString) && device.pos == old(device.pos)
      ensures ok ==> device.data == old(device.data) + WrittenText(formats(InchiFormat).value, file.molecules)
    {
      var inchiFormat := formats(InchiFormat);
      if inchiFormat.None? {
        errorString := NotSupportedError;
        return false;
      }
      WriteRecords(device, inchiFormat.value, file.molecules);
      return true;
    }
  }
}
