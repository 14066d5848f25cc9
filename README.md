# chemkit geometry optimizer and line-record file formats, in Dafny

This project models two parts of chemkit, a C++ chemistry library.

**The geometry-optimizer session.** `MoleculeGeometryOptimizer` binds a force field, looked up by name, to a molecule. It refines a private working copy of the molecule's coordinates by bounded line searches, and writes the result back to the molecule at the end.

- `setup()` can fail in three ways, each with its own message: no molecule, an unknown force-field name, or a force field that rejects the molecule.
- `step()` makes at most 10 trial moves against a fixed gradient:
  - the step size starts at 0.05;
  - it doubles, capped at 1, when the energy drops;
  - it is multiplied by 0.1 when the energy rises, and the move is undone exactly;
  - the search stops early once an improvement is smaller than 1e-5;
  - a NaN energy restores the snapshot, offsets every atom by a random vector and refreshes the gradient.
- `optimize()` sets up, steps until the RMS gradient falls below 0.1, then copies the coordinates to the molecule's atoms.

**The "smi" and "inchi" file formats.** Each line of such a file holds an identifier (a SMILES or an InChI string), optionally followed by the molecule's name. Reading parses each identifier with the SMILES or InChI line format, skips the lines it rejects, and appends the accepted molecules in order. Writing prints one such line per molecule. The two readers tokenise differently:

- the SMILES reader collapses white space and keeps the whole rest of the line as the name;
- the InChI reader trims the line, splits it at every single space (keeping empty parts), and keeps only the second part as the name.

## How the model is built

- **Force fields.** A force field is a value of four functions: does it accept the atoms, energy, gradient and RMS gradient. Energies and RMS gradients are `Option<real>`, with `None` standing for NaN. The comparisons `<` and `>` against a NaN reference are false, as in IEEE arithmetic (`LineSearch.Below`, `LineSearch.Above`). `ForceField::create` is a `Registry` from names to optional force-field kinds.
- **The random offsets.** Each offset is an arbitrary vector chosen by `:|`. `Step` reports the offsets it drew in a ghost out-parameter. Its postcondition then ties the new coordinates to the pure specification `LineSearch.Run`.
- **What is proved.** `LineSearch.Trial` is one pass of the loop and `LineSearch.Run` is a whole call. The line-search properties (step bounds, exact restore, energy never rising, behaviour on NaN) are lemmas about these two functions.
- **The optimize loop.** The C++ loop has no bound, so `Optimize` takes a `fuel` bound. `LineSearch.Descent` describes the coordinates after the successive steps.
- **Text.** The Qt string operations are re-specified over `seq<char>` in `QtText`.
  - `ByteSpace` is the six ASCII white-space bytes that `QByteArray::simplified` and `::trimmed` remove.
  - `CharSpace` adds U+00A0, which `QString::trimmed` also removes; this matters for the SMILES name. The model follows Qt 4, which the code targets (it uses `toAscii`). There `QChar::isSpace` covers U+0009 to U+000D and the Unicode space separators, so U+0085 is not trimmed; Qt 5 would also trim it.
- **Devices, files and line formats.** The device is a `Device` class: a string read a line at a time from a position, or appended to. The molecule file is a `MoleculeFile` class. The SMILES and InChI line formats are function-valued `LineFormat`s.
- **The per-line step.** It is a pure function per format: `SmiFileFormat.SmiFields` and `InchiFileFormat.InchiFields`. `ChemicalFiles.ReadLines` folds such a function over the lines. The reading loop (`ChemicalFiles.ReadRecords`) is the same in both plugins and is written once.

Where the code and its documentation differ, the model follows the code:

- **Failed force-field setup.** When the force field rejects the molecule, the new force field stays installed, and the working coordinates are left as they were.
- **Equal energies.** A trial move whose energy equals the reference matches no branch. The move is kept and the step size is unchanged.
- **Blank InChI lines.** `split(" ")` always yields at least one part, so the reader's empty check never fires. A blank line hands the empty string to the InChI parser.

## Model

| member | source | states |
|---|---|---|
| GeometryOptimizer.MoleculeGeometryOptimizer.constructor | src/md/moleculegeometryoptimizer.cpp:98-104 | a new session holds the given molecule, no force field and the name "uff" |
| GeometryOptimizer.MoleculeGeometryOptimizer.SetMolecule | src/md/moleculegeometryoptimizer.cpp:115-120 | only the molecule changes |
| GeometryOptimizer.MoleculeGeometryOptimizer.SetForceField | src/md/moleculegeometryoptimizer.cpp:132-137 | any name is stored, unchecked, and the answer is always true; nothing else changes |
| GeometryOptimizer.MoleculeGeometryOptimizer.Energy | src/md/moleculegeometryoptimizer.cpp:148-155 | 0 without a force field, otherwise the force field's energy at the working coordinates |
| GeometryOptimizer.MoleculeGeometryOptimizer.Setup | src/md/moleculegeometryoptimizer.cpp:159-184 | succeeds exactly when there is a molecule, the name is registered and the force field accepts the atoms. Each failure sets its own message. Without a molecule the force field and coordinates are untouched. With an unknown name no force field remains and the energy reads 0. A registered force field stays installed even when it rejects the molecule. The coordinates are copied from the molecule only on success |
| GeometryOptimizer.MoleculeGeometryOptimizer.MoveAtoms | src/md/moleculegeometryoptimizer.cpp:210-213 | every atom below the force field's atom count moves by minus its gradient times the step; the other atoms stay put |
| GeometryOptimizer.MoleculeGeometryOptimizer.Wiggle | src/md/moleculegeometryoptimizer.cpp:222-227 | each moved atom is put back at its snapshot position plus the offset drawn for it |
| GeometryOptimizer.MoleculeGeometryOptimizer.TrialMove | src/md/moleculegeometryoptimizer.cpp:207-258 | one pass of the loop in place: the new coordinates, gradient, step, reference energy and stop flag are the line-search specification's pass applied to the old ones, for the offsets drawn |
| GeometryOptimizer.MoleculeGeometryOptimizer.Step | src/md/moleculegeometryoptimizer.cpp:189-263 | without a molecule or force field: false, coordinates unchanged. Otherwise: at most 10 passes, all 10 unless the search stopped early. The new coordinates are those of the line-search specification for the offsets drawn. The answer is whether the RMS gradient there is below 0.1 |
| GeometryOptimizer.MoleculeGeometryOptimizer.Descend | src/md/moleculegeometryoptimizer.cpp:205-259 | the passes of one step: at most 10, all 10 unless the search stopped early, ending at the coordinates of the line-search specification for the offsets drawn |
| GeometryOptimizer.MoleculeGeometryOptimizer.WriteCoordinates | src/md/moleculegeometryoptimizer.cpp:285-294 | without a force field the molecule is untouched; otherwise atom i gets working coordinate i, for every atom, and keeps its element |
| GeometryOptimizer.MoleculeGeometryOptimizer.StepUntilConverged | src/md/moleculegeometryoptimizer.cpp:273-276 | steps until the first step that reports convergence, or until the fuel runs out. The answer is true exactly when a step was made and the working coordinates have converged; it is false only once the fuel is spent. No step before the last converged, and the coordinates are those of the successive line searches |
| GeometryOptimizer.MoleculeGeometryOptimizer.StepAndWriteBack | src/md/moleculegeometryoptimizer.cpp:273-279 | the loop and then the write-back: the same answer and coordinates as the loop, and every atom takes its working coordinate and keeps its element |
| GeometryOptimizer.EarlierSteps | src/md/moleculegeometryoptimizer.cpp:273-276 | a step taken because the previous one did not converge extends the steps with none converging early, and ends where one more line search from the previous end does |
| GeometryOptimizer.NotConvergedBefore | src/md/moleculegeometryoptimizer.cpp:273-276 | spelled out: after the loop, the coordinates after each step but the last had not converged |
| GeometryOptimizer.Converged | src/md/moleculegeometryoptimizer.cpp:261-262 | converged exactly when the RMS gradient is a number below 0.1; a NaN RMS gradient never converges |
| GeometryOptimizer.MoleculeGeometryOptimizer.Optimize | src/md/moleculegeometryoptimizer.cpp:267-282 | false without touching the molecule exactly when setup fails, with the message setup set (no molecule, unsupported force field, or failed setup). Otherwise: the force field is bound to the molecule's atoms; the successive line searches run from the molecule's original coordinates and stop at the first step that converges; the molecule's coordinates become the result. The answer is true exactly when a step converged, and false only after the fuel is spent |
| GeometryOptimizer.MoleculeGeometryOptimizer.OptimizeCoordinates | src/md/moleculegeometryoptimizer.cpp:305-308 | a fresh session with the default force field "uff". When setup fails the result is false and the molecule is unchanged. Otherwise the atoms keep their elements and move to the coordinates reached by successive line searches from their own positions, which stop at the first converged step. True exactly when such a step converged; false only after the fuel is spent |
| LineSearch.Start | src/md/moleculegeometryoptimizer.cpp:196-203 | the search starts at step 0.05 with the energy and gradient at the working coordinates, and the gradient covers every coordinate |
| LineSearch.Move | src/md/moleculegeometryoptimizer.cpp:211-213 | the trial move keeps the coordinate count |
| LineSearch.Perturb | src/md/moleculegeometryoptimizer.cpp:223-227 | the perturbed snapshot keeps the coordinate count |
| LineSearch.Below | src/md/moleculegeometryoptimizer.cpp:236-239 | `finalEnergy < initialEnergy` in IEEE terms: false whenever the reference is NaN, otherwise the ordinary comparison |
| LineSearch.Above | src/md/moleculegeometryoptimizer.cpp:252 | `finalEnergy > initialEnergy` in IEEE terms: false whenever the reference is NaN, otherwise the ordinary comparison |
| LineSearch.Trial | src/md/moleculegeometryoptimizer.cpp:207-258 | one pass keeps the coordinate count and the step size in (0, 1]. It leaves atoms beyond the force field's count alone, and the reference energy either stays or strictly drops. The gradient stays or is refreshed at the new coordinates. The step changes only together with a restore or a new reference energy |
| LineSearch.TrialOutcome | src/md/moleculegeometryoptimizer.cpp:222-258 | per outcome of one pass: NaN keeps step and reference, offsets each moved atom from its snapshot and refreshes the gradient. A higher energy restores the coordinates exactly and multiplies the step by 0.1. A lower energy keeps the move; the search stops exactly when the improvement is below 1e-5, and a stop keeps the step and the reference, while a larger improvement takes the new energy as reference with step min(2·step, 1). An equal energy keeps the move, the step and the reference. Only the early exit sets the stop flag |
| LineSearch.Run | src/md/moleculegeometryoptimizer.cpp:205-259 | after any number of passes the coordinate count, the step bounds (0, 1] and the atoms beyond the force field's count are preserved, and the reference energy never rises |
| LineSearch.RunExtend | src/md/moleculegeometryoptimizer.cpp:206-259 | a pass after a run that has not stopped is one more trial on its state |
| LineSearch.TrialSettles | src/md/moleculegeometryoptimizer.cpp:236-258 | a pass without NaN keeps the reference energy equal to the energy of the current coordinates, or just above it after the early exit |
| LineSearch.RunSettles | src/md/moleculegeometryoptimizer.cpp:205-259 | the same holds after any number of passes without NaN |
| LineSearch.StepNeverRaisesEnergy | src/md/moleculegeometryoptimizer.cpp:201-259 | a line search without NaN ends at an energy no higher than where it started |
| LineSearch.NaNStartNeverAdapts | src/md/moleculegeometryoptimizer.cpp:236-258 | from a NaN starting energy no comparison holds: the step stays 0.05, the reference stays NaN and there is no early exit |
| LineSearch.Descent | src/md/moleculegeometryoptimizer.cpp:273-276 | successive line searches keep the coordinate count |
| LineSearch.DescentExtend | src/md/moleculegeometryoptimizer.cpp:273-276 | one more step continues the successive line searches with one more whole line search from where they ended |
| Molecules.Positions | src/md/moleculegeometryoptimizer.cpp:181 | the molecule's coordinates: one point per atom, the atom's position |
| Molecules.WithPositions | src/md/moleculegeometryoptimizer.cpp:291-293 | atom i moves to coordinate i and keeps its element; the atoms' positions are then the first coordinates |
| Molecules.Molecule.SetPosition | src/md/moleculegeometryoptimizer.cpp:292 | only atom i's position changes |
| ForceFields.ForceField.Gradient | src/md/moleculegeometryoptimizer.cpp:203 | one gradient vector per coordinate |
| ForceFields.Bind | src/md/moleculegeometryoptimizer.cpp:168-174 | the force field of the named kind, bound to a molecule: its atom count is the molecule's |
| QtText.Split | src/plugins/inchi/inchifileformat.cpp:51 | at least one part; no part holds a separator |
| QtText.NonEmpty | src/plugins/smiles/smifileformat.cpp:50 | the non-empty parts, each one of the given parts |
| QtText.TrimStart | src/plugins/inchi/inchifileformat.cpp:49 | the longest suffix that does not start with white space; everything cut is white space |
| QtText.TrimEnd | src/plugins/inchi/inchifileformat.cpp:49 | the longest prefix that does not end with white space; everything cut is white space |
| QtText.Trimmed | src/plugins/inchi/inchifileformat.cpp:49 | neither starts nor ends with white space, and is no longer than the text |
| QtText.TrimmedBlank | src/plugins/inchi/inchifileformat.cpp:49 | trimming gives the empty string exactly when the text is all white space |
| QtText.Words | src/plugins/smiles/smifileformat.cpp:48-50 | every word is non-empty and holds no white space |
| QtText.Simplified | src/plugins/smiles/smifileformat.cpp:48 | keeps the words of the text, and its only white space is the plain space |
| QtText.Lines | src/plugins/smiles/smifileformat.cpp:47-48 | no lines exactly when the text is empty; every line read is non-empty, so each readLine makes progress |
| QtText.LineLength | src/plugins/smiles/smifileformat.cpp:48 | a line runs up to and including the first line feed, or to the end of the text |
| QtText.SplitJoin | src/plugins/inchi/inchifileformat.cpp:51 | splitting undoes joining when no part holds a separator |
| QtText.JoinSplit | src/plugins/inchi/inchifileformat.cpp:51 | joining the parts of a split on one separator gives the text back |
| QtText.SplitPrefix | src/plugins/inchi/inchifileformat.cpp:51-62 | where the first two parts of a split sit in the text |
| QtText.WordsOfJoin | src/plugins/smiles/smifileformat.cpp:48 | space-joined words are their own words |
| QtText.SimplifiedWords | src/plugins/smiles/smifileformat.cpp:48 | simplifying keeps the words and is idempotent |
| QtText.SimplifiedSplit | src/plugins/smiles/smifileformat.cpp:48-50 | splitting a simplified line on spaces, skipping empty parts, gives its words |
| QtText.LinesOfConcat | src/plugins/smiles/smifileformat.cpp:47-48 | reading complete lines back from their concatenation gives those lines |
| QtText.ConcatOfLines | src/plugins/smiles/smifileformat.cpp:47-48 | the lines read up to the end cover the whole text |
| ChemicalFiles.ReadRecord | src/plugins/smiles/smifileformat.cpp:55-68 | a line yields a molecule exactly when it has fields and the parser accepts the identifier; it keeps the parsed structure and takes the line's name when there is one |
| ChemicalFiles.ReadLines | src/plugins/smiles/smifileformat.cpp:47-69 | at most one molecule per line |
| ChemicalFiles.ReadLinesAppend | src/plugins/smiles/smifileformat.cpp:47-69 | molecules are appended in line order: reading two stretches of lines gives the first's molecules then the second's |
| ChemicalFiles.ReadLinesCons | src/plugins/inchi/inchifileformat.cpp:48-67 | one more line in front contributes its molecule in front |
| ChemicalFiles.AddRecord | src/plugins/inchi/inchifileformat.cpp:56-66 | a line's molecule, if any, is appended to the file |
| ChemicalFiles.ReadRecords | src/plugins/inchi/inchifileformat.cpp:48-67 | reads to the end of the device, leaves its text alone and appends the molecules of the lines that remained, in order |
| ChemicalFiles.WriteRecord | src/plugins/smiles/smifileformat.cpp:87-95 | appends the identifier, " " and the name only when the name is non-empty, and a line feed |
| ChemicalFiles.RecordLine | src/plugins/smiles/smifileformat.cpp:87-95 | the identifier begins the line and a line feed ends it; the space and the name add their length only when the name is non-empty |
| ChemicalFiles.WrittenText | src/plugins/smiles/smifileformat.cpp:86-96 | the text written for one or more molecules ends with a line feed |
| ChemicalFiles.WriteRecords | src/plugins/smiles/smifileformat.cpp:86-96 | appends exactly the record lines of the molecules, in order, and nothing else |
| ChemicalFiles.WrittenTextSnoc | src/plugins/smiles/smifileformat.cpp:86-96 | writing one more molecule appends its record line |
| ChemicalFiles.RecordLineIsLine | src/plugins/smiles/smifileformat.cpp:87-95 | a record line of line-feed-free parts is one complete line |
| ChemicalFiles.ReadWrittenText | src/plugins/smiles/smifileformat.cpp:37-101 | a written file reads back as its molecules when every record line reads back as its molecule |
| ChemicalFiles.MoleculeFile.AddMolecule | src/plugins/smiles/smifileformat.cpp:68 | the molecule is appended at the end |
| ChemicalFiles.Device.ReadLine | src/plugins/smiles/smifileformat.cpp:48 | at the end: an empty line and no progress; otherwise the next line, and the remaining lines are the rest |
| ChemicalFiles.Device.AtEnd | src/plugins/smiles/smifileformat.cpp:47 | the read loop's condition: the device is at its end exactly when no line remains to be read |
| ChemicalFiles.Device.Write | src/plugins/smiles/smifileformat.cpp:88 | appends to the device's text |
| SmiFileFormat.SmiFields | src/plugins/smiles/smifileformat.cpp:48-66 | nothing exactly when the line has no words. The identifier is the first word. A name exactly when there are two words or more, namely the remaining words joined by single spaces and trimmed |
| SmiFileFormat.NameAfterFirstWord | src/plugins/smiles/smifileformat.cpp:63-64 | the text after the first word of a simplified line, trimmed, is the remaining words joined by single spaces and trimmed |
| SmiFileFormat.LineRoundTrip | src/plugins/smiles/smifileformat.cpp:48-95 | a written line reads back as its SMILES string, with its name exactly when the name is non-empty (for a one-word SMILES string and a simplified name without white space at its ends) |
| SmiFileFormat.FileRoundTrip | src/plugins/smiles/smifileformat.cpp:37-101 | reading a written file gives back the molecules written, when each is storable |
| SmiFileFormat.SmiFileFormat.constructor | src/plugins/smiles/smifileformat.cpp:26-30 | no error yet |
| SmiFileFormat.SmiFileFormat.Read | src/plugins/smiles/smifileformat.cpp:37-74 | true exactly when the SMILES line format exists. Without it: the error "SMILES line format not supported." and nothing read or added. With it: the device read to its end and the molecules of its remaining lines appended in order |
| SmiFileFormat.SmiFileFormat.Write | src/plugins/smiles/smifileformat.cpp:76-101 | true exactly when the SMILES line format exists. Without it: the error and nothing written. With it: one record line per molecule, in file order |
| InchiFileFormat.InchiFields | src/plugins/inchi/inchifileformat.cpp:49-64 | always some fields, so a blank line reaches the parser as "". The identifier is the trimmed line up to its first space. Without a space there is no name. With one, the name is the text up to the next space or the end |
| InchiFileFormat.TrimmedLineFields | src/plugins/inchi/inchifileformat.cpp:51-64 | the fields of an already trimmed line: as above, with the line in place of the trimmed line |
| InchiFileFormat.FirstTwoParts | src/plugins/inchi/inchifileformat.cpp:51-62 | the first part of a split at single spaces is the whole line when there is no space; otherwise the second part follows it after one space and ends at the next space or the end |
| InchiFileFormat.BlankLine | src/plugins/inchi/inchifileformat.cpp:49-57 | a blank line asks the parser for the empty string and gives no name |
| InchiFileFormat.NameCutAtSpace | src/plugins/inchi/inchifileformat.cpp:61-64 | a name holding a space reads back as its first word only, empty when it starts with a space |
| InchiFileFormat.LineRoundTrip | src/plugins/inchi/inchifileformat.cpp:49-91 | a written line reads back as its InChI string, with its name exactly when the name is non-empty (for a one-word InChI string and a name without spaces or a trailing white space) |
| InchiFileFormat.FileRoundTrip | src/plugins/inchi/inchifileformat.cpp:38-99 | reading a written file gives back the molecules written, when each is storable |
| InchiFileFormat.InchiFileFormat.constructor | src/plugins/inchi/inchifileformat.cpp:28-31 | no error yet |
| InchiFileFormat.InchiFileFormat.Read | src/plugins/inchi/inchifileformat.cpp:38-72 | true exactly when the InChI line format exists. Without it: the error "InChI line format not supported." and nothing read or added. With it: the device read to its end and the molecules of its remaining lines appended in order |
| InchiFileFormat.InchiFileFormat.Write | src/plugins/inchi/inchifileformat.cpp:74-99 | true exactly when the InChI line format exists. Without it: the error and nothing written. With it: one record line per molecule, in file order |

## Left out

- `optimizeCoordinatesAsync`: the future and worker thread are concurrency. The call it runs is `OptimizeCoordinates`.
- The destructor and the `delete` of the old force field: memory management. Replacing the field models the latter.
- The getters `molecule()`, `forceField()` and `errorString()` return fields. The model reads those fields directly.
- Floating point: energies and coordinates are reals. A NaN energy is `None`. Infinities and NaN gradient components are not modelled.
- GeometryOptimizer.MoleculeGeometryOptimizer.Wiggle: the offsets are arbitrary vectors. That they have unit length and are random is not modelled.
- GeometryOptimizer.MoleculeGeometryOptimizer.Optimize: the C++ loop may never end. The model stops after `fuel` steps, still writes back, and then answers false; only then does it answer false after a successful setup. Termination of the unbounded loop is not claimed.
- GeometryOptimizer.MoleculeGeometryOptimizer.StepUntilConverged: bounded by `fuel` for the same reason.
- GeometryOptimizer.MoleculeGeometryOptimizer.Step: it requires the working coordinates to cover the force field's atoms. This can fail only after a failed force-field setup (the force field stays installed but the coordinates were not refreshed). There the C++ code would index past the end of the coordinate array, which is undefined behaviour.
- GeometryOptimizer.MoleculeGeometryOptimizer.WriteCoordinates: it requires the working coordinates to cover the molecule's atoms. This fails after a failed force-field setup, and also after a successful one when `setMolecule` then swaps in a larger molecule or atoms are added to the molecule. There the C++ loop runs to `molecule->size()` and reads past the end of the coordinate array, which is undefined behaviour.
- Force-field internals (energy, gradient and RMS gradient maths, parameter assignment, `ForceField::create`): these are oracles.
- The SMILES and InChI parsers and writers (`LineFormat`): these are oracles too. The name a parser may give a molecule is kept when the line carries none.
- Text mode and character encoding: `setTextModeEnabled`, `toAscii`, the byte-to-QString conversion, `toStdString` and the InChI writer's `c_str()` are not modelled. Characters stand for bytes, so a line-feed conversion or a non-ASCII name may differ from the C++ behaviour. Qt 4's byte-to-QString conversion also stops at the first NUL, so a line holding '\0' is read cut short in C++; both `Storable` predicates therefore exclude NUL from the identifier and the name, and the file round trips do not cover such molecules.
- ChemicalFiles.WriteRecord: the InChI writer hands `c_str()` to `QIODevice::write(const char*)` (src/plugins/inchi/inchifileformat.cpp:86,90), which stops at the first NUL. An InChI string or name holding '\0' is therefore written cut short in C++, while the model writes it whole.
- Unicode white space above U+00FF: `QString::trimmed` would also remove it, and the model does not.
- The `qDebug` output for a rejected SMILES string: diagnostics only.
- Ownership of the parsed molecules and of the line format object: memory management.
