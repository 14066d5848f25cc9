/** The "smi" file format: one SMILES string per line, optionally followed
    by the molecule's name, which may itself contain spaces. */
module SmiFileFormat {
  import opened Options
  import opened QtText
  import opened ChemicalFiles

  const SmilesFormat := "smiles"
  const NotSupportedError := "SMILES line format not supported."

  /** The fields of one line read from the device. The line is simplified
      (white space collapsed to single spaces, ends cut off) and split on
      spaces, skipping empty parts: a line without words gives nothing.
      The first word is the SMILES string; when there is a second word, the
      name is everything after the SMILES string, trimmed. */
  function SmiFields(raw: string): (r: Option<LineFields>)
    ensures r.None? <==> Words(raw) == []
    ensures r.Some? ==> r.value.identifier == Words(raw)[0]
    ensures r.Some? ==> (r.value.name.Some? <==> |Words(raw)| >= 2)
    ensures r.Some? && r.value.name.Some? ==>
      r.value.name.value == Trimmed(Join(Words(raw)[1..], ' '), CharSpace)
  {
    var line := Simplified(raw);
    var splitLine := NonEmpty(Split(line, {' '}));
    SimplifiedSplit(raw);
    NameAfterFirstWord(raw);
    if splitLine == [] then None
    else
      var smiles := splitLine[0];
      if |splitLine| >= 2 then
        Some(LineFields(smiles, Some(Trimmed(line[|smiles|..], CharSpace))))
      else
        Some(LineFields(smiles, None))
  }

  /** In a simplified line of at least two words, the text after the first
      word is, once trimmed, the remaining words joined by single spaces. */
  lemma NameAfterFirstWord(raw: string)
    ensures var words, line := Words(raw), Simplified(raw);
      |words| >= 2 ==>
        |words[0]| <= |line| &&
        Trimmed(line[|words[0]|..], CharSpace) == Trimmed(Join(words[1..], ' '), CharSpace)
  {
    var words, line := Words(raw), Simplified(raw);
    if |words| >= 2 {
      var rest := Join(words[1..], ' ');
      assert line == words[0] + [' '] + rest;
      assert line[|words[0]|..] == [' '] + rest && line[|words[0]|..][1..] == rest;
    }
  }

  /** A molecule the "smi" format can store faithfully: its SMILES string is
      one word, its name is already simplified and does not start or end
      with a white-space character, neither holds a NUL (which the C++
      reader's byte-to-string conversion stops at), and the SMILES parser
      reads the string back as the same structure with no name. */
  ghost predicate Storable<S>(format: LineFormat<S>, m: NamedStructure<S>) {
    var smiles := format.write(m);
    smiles != [] && Free(smiles, ByteSpace) &&
    '\0' !in smiles && '\0' !in m.name &&
    Simplified(m.name) == m.name &&
    (m.name == [] || (m.name[0] !in CharSpace && m.name[|m.name| - 1] !in CharSpace)) &&
    format.read(smiles) == Some(m.(name := []))
  }

  lemma TrimmedKeeps(s: string, spaces: set<char>)
    requires s != [] && s[0] !in spaces && s[|s| - 1] !in spaces
    ensures Trimmed(s, spaces) == s
  {
    assert TrimStart(s, spaces) == s;
  }

  /** A written record line yields the SMILES string, and the name exactly
      when it is non-empty. */
  lemma LineRoundTrip(smiles: string, name: string)
    requires smiles != [] && Free(smiles, ByteSpace)
    requires Simplified(name) == name
    requires name == [] || (name[0] !in CharSpace && name[|name| - 1] !in CharSpace)
    ensures SmiFields(RecordLine(smiles, name)) ==
      Some(LineFields(smiles, if name == [] then None else Some(name)))
  {
    WordsOfJoin([smiles]);
    if name == [] {
      assert RecordLine(smiles, name) == smiles + ['\n'];
      WordsEndingWith(smiles, '\n');
    } else {
      assert RecordLine(smiles, name) == smiles + [' '] + (name + ['\n']);
      WordsAfter(smiles, ' ', name + ['\n']);
      WordsEndingWith(name, '\n');
      assert Words(name) != [];
      assert ([smiles] + Words(name))[1..] == Words(name);
      TrimmedKeeps(name, CharSpace);
    }
  }

  /** Reading back a written "smi" file gives the molecules that were written. */
  lemma FileRoundTrip<S>(format: LineFormat<S>, molecules: seq<NamedStructure<S>>)
    requires forall k :: 0 <= k < |molecules| ==> Storable(format, molecules[k])
    ensures ReadLines(format, SmiFields, Lines(WrittenText(format, molecules))) == molecules
  {
    forall k | 0 <= k < |molecules|
      ensures '\n' !in format.write(molecules[k]) && '\n' !in molecules[k].name
      ensures ReadRecord(format, SmiFields(RecordLine(format.write(molecules[k]), molecules[k].name))) == Some(molecules[k])
    {
      var m := molecules[k];
      assert Storable(format, m);
      JoinFree(Words(m.name), ' ', {'\n'});
      LineRoundTrip(format.write(m), m.name);
    }
    ReadWrittenText(format, SmiFields, molecules);
  }

  /** The "smi" file-format plugin. */
  class SmiFileFormat<S> {
    var errorString: string

    constructor ()
      ensures errorString == []
    {
      errorString := [];
    }

    /** Appends to `file` a molecule for each line, up to the end of `device`,
        whose first word the SMILES format accepts. */
    method Read(device: Device, file: MoleculeFile<S>, formats: LineFormats<S>) returns (ok: bool)
      requires device.Valid()
      modifies this, device, file
      ensures ok <==> formats(SmilesFormat).Some?
      ensures !ok ==> errorString == NotSupportedError && unchanged(device, file)
      ensures ok ==> errorString == old(errorString) && device.Valid() && device.AtEnd() && device.data == old(device.data)
      ensures ok ==>
        file.molecules == old(file.molecules) + ReadLines(formats(SmilesFormat).value, SmiFields, Lines(old(device.data[device.pos..])))
    {
      var smilesFormat := formats(SmilesFormat);
      if smilesFormat.None? {
        errorString := NotSupportedError;
        return false;
      }
      ReadRecords(device, file, smilesFormat.value, SmiFields);
      return true;
    }

    /** Writes one record line per molecule of `file`, in order. */
    method Write(file: MoleculeFile<S>, device: Device, formats: LineFormats<S>) returns (ok: bool)
      modifies this, device
      ensures ok <==> formats(SmilesFormat).Some?
      ensures !ok ==> errorString == NotSupportedError && unchanged(device)
      ensures ok ==> errorString == old(errorString) && device.pos == old(device.pos)
      ensures ok ==> device.data == old(device.data) + WrittenText(formats(SmilesFormat).value, file.molecules)
    {
      var smilesFormat := formats(SmilesFormat);
      if smilesFormat.None? {
        errorString := NotSupportedError;
        return false;
      }
      WriteRecords(device, smilesFormat.value, file.molecules);
      return true;
    }
  }
}
