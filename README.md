# AlphaPack Discovery backend core, in Dafny

This project models the backend of AlphaPack Discovery, a service that stores
datasets of molecular crystals and serves them to a web front end. It proves
properties of that model. The model covers five parts of the backend.

- **The crystal token format** (`backend/org_crystal.py`):
  - `MolecularCrystal` turns a crystal into a tagged token list for a language model: the SELFIES tokens, the space group, six lattice parameters, three centre-of-mass and three rotation components, each number spelled one character per token at a fixed precision.
  - `from_tokens` parses such a list back by regular-expression tag search.
  - `tokens_to_ids` and `from_token_ids` translate between tokens and ids through the 140-entry `VOCAB`.
  - The object also has a property map and a CIF text writer, and the module holds the clamp `abs_cap` and the tables `VOCAB`, `SG_HALL` and `SG_OPS_TEXT`.
- **The upload entry validator** (`backend/token_utils.py`, `parse_one_item`): early warnings, the three density sources and the merge of extra fields.
- **The XYZ molecule parser** (`backend/xyz_utils.py`, `parse_xyz`).
- **The dataset routes** (`backend/main.py`): the upload loop and its formula, the dataset list with its defaults and stable newest-first sort, the manifest route, and the density/energy landscape with its write-back cache of computed densities.
- **The leaderboard routes** (`backend/routers/leaderboard.py`).

Numbers are exact decimals, not floats. A `Decimal(units, scale)` stands for `units / 10^scale`. `f"{v:.pf}"` is `FormatFixed`, rounding half to even. `float(s)` is `ParseFloat`, reading decimal text exactly. Python dictionaries are insertion-ordered association lists (`PyDict`). JSON values are the `Json` datatype (`PyJson`). Strings are `seq<char>`.

The modules are:

- `Wrappers`: `Option` and `Result`.
- `Seqs`: small sequence facts.
- `PyStr`: `strip`, `split`, `' '.join`, `splitlines`, `lower`.
- `Decimals`: fixed-point text, `float()` and `int()`.
- `PyDict` and `PyJson`.
- `TagText`: the regular-expression tag search of `from_tokens`, at character level.
- `Vocab`: the three constant tables.
- `OrgCrystal`: the `MolecularCrystal` class, its token writer and reader, ids, and CIF text.
- `TokenUtils`, `XyzUtils`, `Datasets` (for `main.py`) and `Leaderboard`.

Operations that update state in place are methods with loops and invariants, each proved equal to a specification function. The specification functions carry the proved properties. This covers `get_crystal_tokens`, the `from_tokens` loops, `to_cif_string`, the merge loop of `parse_one_item`, the `parse_xyz` loop, and the upload, list and landscape loops. The object's setters are `modifies` methods of the class `MolecularCrystal`. The storage back end is a class `Store` with a map of JSON documents and a map of raw uploads.

The main results are these.

- **Token round trip:** `from_tokens(get_crystal_tokens())` gives back the space group, the SELFIES tokens, and every lattice, centre and rotation value rounded to its precision, and keeps the given properties, whenever the SELFIES tokens are free of whitespace and `<` (`OrgCrystal.TokensRoundTrip`).
- **Id round trip:** ids round-trip through any one-to-one vocabulary. `VOCAB` is one-to-one over 140 distinct tokens, with ids `0..139`.
- **Upload partition:** every upload entry lands in the manifest or in the warnings, never both. The manifest holds the accepted entries and the warnings are those of the turned-away entries, both in payload order.
- **Stable sort:** the dataset list is sorted newest first, is a permutation of its input, and keeps ties in their original order.
- **Landscape cache:** a second landscape over the written-back manifest never computes the density of an entry that already gave a point. If no density that failed before can now be computed, it gives the same points and the same manifest. An entry whose density computation failed is tried again, as in the source.
- **Leaderboard filter:** the filter is sound, complete and order-preserving.

## Model

| member | source | states |
|---|---|---|
| OrgCrystal.AbsCap | backend/org_crystal.py:9-21 | for `m >= 0` the result lies in `[-m, m]`; it is `v` itself when `|v| <= m`, `m` above that range and `-m` below it; for a negative `m` it is always `-m`, as `max(min(v, m), -m)` gives |
| Decimals.SplitNumeric | backend/org_crystal.py:5-7 | one single-character token per character of the fixed-precision text, and the tokens concatenate back to that text |
| Decimals.FormatFixed | backend/org_crystal.py:6 | `f"{v:.pf}"` text: non-empty, digits, an optional leading `-` exactly when the value is negative, and exactly `p` digits after a point when `p > 0` |
| Decimals.RoundMagnitudeNearest | backend/org_crystal.py:6 | the rounded magnitude is exact when no digits are dropped; otherwise it is within half a unit of the last kept place, and even on a tie |
| Decimals.RoundedExact | backend/org_crystal.py:6 | rounding to at least the number's own scale keeps its value |
| Decimals.RoundedNearest | backend/org_crystal.py:6 | the rounded value is within half a unit of the last kept place |
| Decimals.ParseFormatFixed | backend/org_crystal.py:122 | `float()` of the fixed-precision text is the value rounded to `p` places |
| Decimals.ParseRepr | backend/org_crystal.py:304-309 | `float()` of the `repr` text written into the CIF cell lines reads back the same number |
| Decimals.ParseIntOfString | backend/org_crystal.py:117 | `int()` reads back the decimal text of any integer, as the space group is read from its token |
| Decimals.BlankNotANumber | backend/xyz_utils.py:6-10 | blank text is neither a float nor an int, so it raises `ValueError` |
| Decimals.ParseFloat | backend/org_crystal.py:122 | the definition of `float(s)` on text: surrounding whitespace ignored, an optional sign, digits with an optional point and an optional exponent, `None` for anything else; `ParseFormatFixed` and `ParseRepr` state what it reads back |
| Decimals.ParseInt | backend/org_crystal.py:117 | the definition of `int(s)` on text: surrounding whitespace ignored, an optional sign and at least one ASCII digit; `ParseIntOfString` states that it reads back `str(n)` |
| Decimals.Repr | backend/org_crystal.py:304-309 | the text `{v}` writes for a float, which `ParseRepr` reads back to the same value |
| OrgCrystal.MolecularCrystal.Create | backend/org_crystal.py:90-101 | `__init__`: fails exactly when no token list is given and building the crystal's tokens raises (a missing lattice key, a short `com` or `rod`), with that error; otherwise a fresh object whose fields hold the arguments, whose tokens are the given ones or those of the crystal, and whose missing property map is empty |
| OrgCrystal.MolecularCrystal.constructor | backend/org_crystal.py:90-101 | the field assignments of `__init__` once the token list is known: every field holds its argument |
| OrgCrystal.CrystalTokens | backend/org_crystal.py:174-194 | the definition of what `get_crystal_tokens` returns: the tokens of the crystal's sections, `MissingKey` for the first absent lattice key, `TooFewValues` for a short `com` or `rod`; `CrystalSectionsAt`, `CrystalWellFormed` and `TokensRoundTrip` state its properties |
| OrgCrystal.CrystalSections | backend/org_crystal.py:178-191 | the definition of the 14 sections in writing order, which `CrystalSectionsAt` spells out |
| OrgCrystal.MolecularCrystal.GetCrystalTokens | backend/org_crystal.py:174-194 | returns the crystal's token list, or the error raised on a missing lattice key or a short `com`/`rod`; on success stores it in `tokens` and changes nothing else |
| OrgCrystal.BuildTokens | backend/org_crystal.py:178-192 | the appending loops build exactly the sections SELF, SG, the six lattice, three centre and three rotation sections, in that order |
| OrgCrystal.AppendLattice | backend/org_crystal.py:182-185 | the lattice loop appends one section per tag at its precision, or fails with the first missing key |
| OrgCrystal.AppendNumbers | backend/org_crystal.py:187-191 | the centre and rotation loops append one section per tag at its precision |
| OrgCrystal.CrystalSectionsAt | backend/org_crystal.py:178-191 | the section list has 14 sections: SELF with the SELFIES tokens, SG with `f"{sg}_sg"`, then the lattice (precisions 2,2,2,1,1,1), centre (3) and rotation (2) sections |
| OrgCrystal.CrystalWellFormed | backend/org_crystal.py:178-191 | each section is opened and closed by matching tags, in the fixed order of tags, and no LE/LE_HULL section is written |
| OrgCrystal.SgTokenAt | backend/org_crystal.py:180 | the space-group token sits right after the SELFIES block and the `<SG>` tag |
| OrgCrystal.MolecularCrystal.FromTokens | backend/org_crystal.py:103-146 | succeeds exactly when the joined tokens parse; the new crystal holds what was parsed, keeps the given tokens, and has no molecule |
| OrgCrystal.ParseTokens | backend/org_crystal.py:103-146 | the definition of what `from_tokens` recovers, or the first error in the order the source reads (SG, lattice, centre, rotation); `TokensRoundTrip` and `ParseTokensNeedsSections` state its properties |
| OrgCrystal.ReadSpaceGroup | backend/org_crystal.py:116-117 | the definition of the space-group read: `MissingSpaceGroup` without an SG section, `BadSpaceGroup` when the token without `_sg` is not an integer |
| OrgCrystal.ReadNumbers | backend/org_crystal.py:119-134 | the definition of the numbers read under a list of tags, or the first that does not parse; `ReadNumbersPresent` states its properties |
| OrgCrystal.ReadProperties | backend/org_crystal.py:136-143 | the definition of the LE/LE_HULL loop; `ReadPropertiesGet` and `ReadPropertiesUnique` state its properties |
| OrgCrystal.ReadLattice | backend/org_crystal.py:119-124 | the lattice loop fills a dict keyed by the lower-cased tags with the parsed values, or fails on the first tag that does not parse |
| OrgCrystal.ReadNumberList | backend/org_crystal.py:126-134 | the centre and rotation loops collect one parsed value per tag, or fail on the first that does not parse |
| OrgCrystal.ReadPropertyList | backend/org_crystal.py:136-143 | the LE/LE_HULL loop gives the properties with each parsable tag's value set |
| OrgCrystal.ReadNumber | backend/org_crystal.py:121-122 | an absent or empty section does not parse as a float |
| OrgCrystal.ParseTokensNeedsSections | backend/org_crystal.py:116-134 | without an SG section parsing fails; a successful parse had every lattice, centre and rotation section present and non-empty |
| OrgCrystal.ReadNumbersPresent | backend/org_crystal.py:119-134 | collecting numbers succeeds only when every tag's section is present |
| OrgCrystal.ReadPropertiesGet | backend/org_crystal.py:136-143 | a property tag that is present and parses overwrites its key; otherwise the key keeps its given value; every other key is untouched |
| OrgCrystal.ReadPropertiesUnique | backend/org_crystal.py:136-143 | the properties stay a dictionary with one entry per key |
| OrgCrystal.CrystalExtract | backend/org_crystal.py:109-134 | `extract(tag)` on the joined tokens of a crystal gives back the SELFIES tokens, the space-group token and the digit tokens of every number, and nothing for LE/LE_HULL |
| OrgCrystal.TokensRoundTrip | backend/org_crystal.py:103-146 | `from_tokens(get_crystal_tokens())` recovers the space group, the SELFIES tokens, each lattice, centre and rotation value rounded to its precision, and the given properties |
| OrgCrystal.LatticeRoundTrip | backend/org_crystal.py:119-124 | each of the six lattice keys reads back as the original value rounded to its precision |
| OrgCrystal.ParsedLattice | backend/org_crystal.py:119-124 | a parsed lattice is the dict built from the six read values under the lower-cased tags |
| OrgCrystal.ParsedLatticeKeys | backend/org_crystal.py:123-124 | a parsed lattice holds all six keys `a`, `b`, `c`, `alpha`, `beta`, `gamma` |
| OrgCrystal.MolecularCrystal.FromTokenIds | backend/org_crystal.py:148-157 | decodes the ids through the inverted vocabulary (`VOCAB` by default), failing on an unknown id, then behaves as `FromTokens` |
| OrgCrystal.IdsToTokens | backend/org_crystal.py:153-156 | the definition of `[id2tok[i] for i in token_ids]` over the inverted vocabulary; `IdsRoundTrip` and `DecodeRoundTrip` state its properties |
| OrgCrystal.IdsRoundTrip | backend/org_crystal.py:148-157 | for a one-to-one vocabulary, decoding the ids of an encodable token list gives the tokens back |
| OrgCrystal.DecodeRoundTrip | backend/org_crystal.py:155-156 | for a one-to-one vocabulary, encoding decoded ids gives the ids back |
| OrgCrystal.VocabIdsRoundTrip | backend/org_crystal.py:229-234 | every list of `VOCAB` tokens encodes and decodes back to itself |
| OrgCrystal.EncodeWithVocab | backend/org_crystal.py:229-234 | encoding with `VOCAB` succeeds exactly when every token is in it, and each id is that token's position |
| OrgCrystal.TokensToIds | backend/org_crystal.py:229-234 | the definition of `[vocab[t] for t in tokens]`, failing on the first unknown token; `EncodeWithVocab` states its properties for `VOCAB` |
| OrgCrystal.MolecularCrystal.GetTokenIds | backend/org_crystal.py:236-243 | the ids of the stored tokens, failing exactly when a token is not in `VOCAB` |
| OrgCrystal.UnknownSpaceGroupUnencodable | backend/org_crystal.py:180 | a crystal whose space group is not in `SG_HALL` has tokens that `VOCAB` cannot encode |
| OrgCrystal.MolecularCrystal.SetProperty | backend/org_crystal.py:159-161 | the property now reads back as the value; every other key is unchanged |
| OrgCrystal.MolecularCrystal.GetProperty | backend/org_crystal.py:163-165 | the stored value of a present key, the default for an absent one |
| OrgCrystal.MolecularCrystal.SetMolecule | backend/org_crystal.py:167-172 | the coordinates and atom types are set |
| OrgCrystal.MolecularCrystal.ToCifString | backend/org_crystal.py:282-328 | the CIF text of the crystal, or the error raised first: no molecule, a missing lattice key, or an unknown space group; the fractional coordinates have one row per row of the local coordinates, as `cart_to_frac_numpy` gives, so there is one atom line per atom that has both a type and coordinates |
| OrgCrystal.CifText | backend/org_crystal.py:282-328 | the definition of the CIF text: header, atom lines and `#END`, or the first error |
| OrgCrystal.CifHeader | backend/org_crystal.py:298-321 | the definition of the lines before the atom lines: the space-group number, the six cell values as `repr`, and the space group's operations with trailing whitespace removed |
| OrgCrystal.WriteCif | backend/org_crystal.py:298-328 | the line-by-line writes build the header, one atom line per atom, and `#END\n` |
| OrgCrystal.AtomLines | backend/org_crystal.py:323-325 | one atom line per (type, coordinate) pair of the shorter list, as `zip` gives |
| OrgCrystal.AtomLine | backend/org_crystal.py:323-325 | the definition of one atom line: label, type, three coordinates at 12 places and the occupancy |
| OrgCrystal.AtomLineLabel | backend/org_crystal.py:325 | each atom line starts with the label `{type}{i}` |
| Vocab.VocabDistinct | backend/org_crystal.py:337-478 | the `VOCAB` literal lists 140 distinct tokens |
| Vocab.VocabTable | backend/org_crystal.py:337-478 | `VOCAB` maps the token at position `i` to id `i`, one-to-one, and holds no other token |
| Vocab.VocabLookup | backend/org_crystal.py:234 | a token has an id exactly when it is in `VOCAB`, and the id points back to it |
| Vocab.SgTablesAgree | backend/org_crystal.py:481-701 | `SG_HALL` and `SG_OPS_TEXT` have the same 26 space groups |
| Vocab.SgTokensSpelled | backend/org_crystal.py:337-508 | the space-group tokens of `VOCAB` are `f"{k}_sg"` for the keys of `SG_HALL`, in order |
| Vocab.SgTokenInVocab | backend/org_crystal.py:180 | the token `f"{k}_sg"` is in `VOCAB` exactly when `k` is a key of `SG_HALL` |
| Vocab.SgTokensDistinct | backend/org_crystal.py:337-508 | the space-group tokens are distinct |
| TagText.LazyEnd | backend/org_crystal.py:111 | where the lazy group `(.*?)` ends: the first place where the closing tag starts, with no newline before it |
| TagText.Search | backend/org_crystal.py:111 | the definition of `re.search(open + '(.*?)' + close, text)`: the group of the leftmost match |
| TagText.Extract | backend/org_crystal.py:110-112 | the definition of `extract(tag)`: the split group of the first match, `[]` when there is none; `ExtractSection` and `ExtractAbsent` state its properties |
| TagText.ExtractSection | backend/org_crystal.py:109-112 | in the joined tokens of well-formed sections, `extract(tag)` of a section's tag gives its body |
| TagText.ExtractAbsent | backend/org_crystal.py:109-112 | a tag that no section uses extracts nothing |
| PyStr.SplitSpaceLed | backend/org_crystal.py:112 | `str.split` gives back whitespace-free tokens joined by spaces |
| TokenUtils.ParseOneItem | backend/token_utils.py:4-48 | the result of `parse_one_item`: the warnings, the exceptions in the order they are raised, or the metadata |
| TokenUtils.ParseItem | backend/token_utils.py:4-48 | the definition of `parse_one_item`; `MissingTokensWarns`, `MissingEnergyWarns`, `ParsedItem`, `ItemFields` and `MergedMeta` state its properties |
| TokenUtils.DensitySource | backend/token_utils.py:26-33 | the definition of the density before conversion: the entry's own value when `density_key` is given, non-empty and present, otherwise the callback's answer, `None` when it raised |
| TokenUtils.DensityField | backend/token_utils.py:38 | the definition of `None if density is None else float(density)`, failing when the value is not a number |
| TokenUtils.BaseMeta | backend/token_utils.py:35-43 | the definition of the dictionary literal, whose keys `BaseMetaKeys` states |
| TokenUtils.MergeExtras | backend/token_utils.py:44-47 | the definition of the closing loop, whose result `MergeExtrasGet` and `MergedMeta` state |
| TokenUtils.MissingTokensWarns | backend/token_utils.py:9-11 | a missing or falsy `tokens` gives empty metadata and the tokens warning |
| TokenUtils.MissingEnergyWarns | backend/token_utils.py:13-16 | with tokens present, a missing energy key gives empty metadata and the energy warning |
| TokenUtils.ParsedItem | backend/token_utils.py:18-48 | success without a warning means the tokens parsed, the energy is a number, the density was chosen, and the metadata is the fixed fields merged with the entry |
| TokenUtils.ItemFields | backend/token_utils.py:9-48 | a warning comes with empty metadata; otherwise the metadata holds the fixed fields and the entry's other fields |
| TokenUtils.MergedMeta | backend/token_utils.py:44-47 | the merge keeps all fixed fields, never adds `tokens`, and adds every other field of the entry |
| TokenUtils.MergedBaseMeta | backend/token_utils.py:35-48 | the stored metadata has name, energy, density, sg, the six lattice values, `com` and `rod`, plus the entry's other fields |
| TokenUtils.BaseMetaKeys | backend/token_utils.py:35-43 | the dictionary literal has exactly the twelve fixed keys, with the given name, density, `com` and `rod` |
| TokenUtils.MergeExtraFields | backend/token_utils.py:44-47 | the merge loop inserts the entry's fields in order |
| TokenUtils.MergeExtrasGet | backend/token_utils.py:44-47 | the merged metadata starts with the fixed fields unchanged; a key reads its fixed value if it had one or is `tokens`, otherwise the entry's value |
| XyzUtils.ParseXyzLines | backend/xyz_utils.py:3-18 | the result of `parse_xyz` on the text: atoms, or the error it raises |
| XyzUtils.ReadHeader | backend/xyz_utils.py:6-10 | the data lines chosen by the count header |
| XyzUtils.KeptLines | backend/xyz_utils.py:4 | the definition of the lines of the stripped text with the blank ones dropped |
| XyzUtils.DataLines | backend/xyz_utils.py:6-10 | the definition of the lines read as atoms, whose slice rules `HeaderData` and `NoHeaderData` state |
| XyzUtils.ReadAtoms | backend/xyz_utils.py:11-17 | the atom loop: short lines skipped, other lines add their symbol and coordinates, and a bad coordinate raises |
| XyzUtils.NonBlank | backend/xyz_utils.py:4 | the kept lines are stripped and non-empty, and no more than the input lines |
| XyzUtils.NonBlankSnoc | backend/xyz_utils.py:4 | one more input line adds itself stripped to the kept lines, or nothing when it is blank |
| XyzUtils.NonBlankAppend | backend/xyz_utils.py:4 | the filter keeps input order: the kept lines of two runs of lines are those of the first run followed by those of the second |
| XyzUtils.NonBlankKeeps | backend/xyz_utils.py:4 | every non-blank input line is kept, stripped |
| XyzUtils.NonBlankFrom | backend/xyz_utils.py:4 | every kept line is some non-blank input line, stripped |
| XyzUtils.NonBlankMembers | backend/xyz_utils.py:4 | a string is kept exactly when it is non-empty and some input line strips to it |
| XyzUtils.BlankLinesDropped | backend/xyz_utils.py:4-7 | nothing is kept, so `lines[0]` raises, exactly when every input line is blank |
| XyzUtils.HeaderData | backend/xyz_utils.py:6-8 | with a count `n` in the first line, the data lines are `lines[2:2+n]` with Python's slice rules, so at most `n` for `n >= 0` |
| XyzUtils.NoHeaderData | backend/xyz_utils.py:9-10 | without a count every kept line is a data line |
| XyzUtils.HeaderBoundsAtoms | backend/xyz_utils.py:6-17 | with a count `n >= 0` at most `n` atoms result, all from `lines[2:2+n]` |
| XyzUtils.BlankTextFails | backend/xyz_utils.py:4-7 | blank text raises at `lines[0]` |
| XyzUtils.ParseXyz | backend/xyz_utils.py:16-18 | the atom types and coordinates have equal length |
| XyzUtils.ParseRowsSucceeds | backend/xyz_utils.py:12-17 | parsing succeeds exactly when every line with four or more fields has numeric coordinates |
| XyzUtils.ParseRowsAtoms | backend/xyz_utils.py:12-17 | the i-th atom is the symbol and coordinates of the i-th line with four or more fields, in input order |
| XyzUtils.ParseRows | backend/xyz_utils.py:12-17 | the atom loop as a function: on success one atom per line of four or more fields, at most one per line |
| Datasets.Store.SaveJson | backend/main.py:49 | stores the document at the path and changes nothing else |
| Datasets.Store.SaveBytes | backend/main.py:44-45 | stores the raw upload at the path and changes nothing else |
| Datasets.UploadDataset | backend/main.py:31-85 | both raw files are saved, and the molecule document once the molecule parses; manifest and meta are written only when every entry was read, with `count` equal to the manifest length, which is also the count returned; a non-dict payload gives 400 before they are written |
| Datasets.IngestEntries | backend/main.py:62-73 | the entry loop builds the manifest and warnings, or stops at the first exception |
| Datasets.Ingest | backend/main.py:62-73 | the definition of the upload loop's two lists, or the first exception; `IngestPartition` states its properties |
| Datasets.Admit | backend/main.py:63-66 | the definition of `parse_one_item` on one payload entry, with `NotADict` when the entry is not a dict |
| Datasets.UploadPlan | backend/main.py:39-73 | the definition of what an upload computes before writing: the molecule, then the payload check, then the loop |
| Datasets.MetaDoc | backend/main.py:76-84 | the definition of the `meta.json` document: id, title (the dataset name or the id), count, time with `Z`, the keys and the warnings |
| Datasets.IngestPartition | backend/main.py:62-73 | every entry is in the manifest or the warnings, never both; the manifest holds the accepted entries in payload order, each with its name and the dataset's formula; the warnings are exactly those of the turned-away entries, in payload order |
| Datasets.Rejected | backend/main.py:63-69 | the reference list of warnings: the warning of each entry that `parse_one_item` turns away, in payload order |
| Datasets.Accepted | backend/main.py:63-73 | the reference list of names: each entry that `parse_one_item` reads without a warning, in payload order |
| Datasets.UploadPartition | backend/main.py:52-79 | a successful upload had a dict payload, its manifest and warnings account for every entry, and the warnings are those of the turned-away entries in payload order |
| Datasets.Elements | backend/main.py:71-72 | the elements of the formula are distinct and are exactly the atom types |
| Datasets.ElementsInOrder | backend/main.py:71-72 | the elements appear in order of first occurrence |
| Datasets.Formula | backend/main.py:71-72 | the definition of the formula: each element in order of first occurrence followed by its count when above 1; `Elements` and `ElementsInOrder` state what it lists |
| Datasets.ListDatasets | backend/main.py:88-104 | the summaries of the readable metas, sorted newest first |
| Datasets.Summary | backend/main.py:94-99 | each summary has exactly the keys `dsid`, `title`, `count`, `created_at`; `SummaryDefaults` states the defaults |
| Datasets.Summaries | backend/main.py:89-101 | the summaries of the readable metas, at most one per meta path; a missing or non-dict meta is skipped |
| Datasets.CreatedKey | backend/main.py:103 | the definition of the sort key `m.get("created_at") or ""` for string and missing values |
| Datasets.SortNewestFirst | backend/main.py:103 | the definition of the sort as insertion in turn; `SortNewestFirstSpec` states that it is sorted, a permutation and stable |
| Datasets.SummaryDefaults | backend/main.py:94-99 | the title defaults to the id and the count to 0 |
| Datasets.SortNewestFirstSpec | backend/main.py:103 | the sort is newest first, a permutation of its input, and stable: entries with the same time keep their order |
| Datasets.InsertSorted | backend/main.py:103 | inserting an entry keeps the list newest first |
| Datasets.InsertStable | backend/main.py:103 | an inserted entry comes after the earlier entries with the same time |
| Datasets.StrBelowAsymmetric | backend/main.py:103 | Python's string order is asymmetric |
| Datasets.GetManifest | backend/main.py:109-113 | 404 without a manifest; otherwise the stored document |
| Datasets.DatasetLandscape | backend/main.py:116-147 | 404 without a manifest; otherwise the loop's points, with the manifest re-saved holding every computed density |
| Datasets.LandscapeLoop | backend/main.py:121-147 | the loop's points, with the manifest in storage as the loop left it |
| Datasets.VisitEntry | backend/main.py:122-146 | one entry's point or skip, the entry after it, and whether it changed |
| Datasets.Visit | backend/main.py:122-146 | the definition of one loop turn; `VisitSkipped`, `VisitPoint`, `VisitCached` and `VisitPlottedStored` state its properties |
| Datasets.Plot | backend/main.py:140-146 | the definition of `pts.append({...})`, raising when `name` is missing or a value is not a number |
| Datasets.Landscape | backend/main.py:121-147 | the landscape has at most one point per entry and keeps one entry per entry |
| Datasets.VisitSkipped | backend/main.py:125-139 | an entry without energy, or without a density that can be computed, gives no point and is left as it is; a stored density is never changed |
| Datasets.VisitPoint | backend/main.py:128-146 | a point has the entry's name as id and name, its density as x, its energy as y, and its formula or name as label; a missing density was computed and written back |
| Datasets.LandscapeFailed | backend/main.py:121-147 | after an exception no further entry is looked at |
| Datasets.VisitCached | backend/main.py:128-137 | visiting a visited entry again gives the same point and entry |
| Datasets.VisitPlottedStored | backend/main.py:128-146 | an entry that gave a point holds its density afterwards, so a second visit reads it and gives the same point whatever a density computation would now answer |
| Datasets.LandscapeCached | backend/main.py:116-147 | the landscape of the written-back manifest gives the same points and manifest, provided no density that could not be computed the first time can be computed now; entries whose computation failed are computed again |
| Leaderboard.ReadJson | backend/routers/leaderboard.py:13-17 | a missing file reads as an empty list |
| Leaderboard.ListBenchmarks | backend/routers/leaderboard.py:19-22 | a missing benchmarks file gives an empty list |
| Leaderboard.Board | backend/routers/leaderboard.py:24-33 | without a benchmark, or with an empty one, all items as stored; otherwise the same as the per-benchmark route |
| Leaderboard.ByBenchmark | backend/routers/leaderboard.py:35-39 | the filtered list; a missing file gives an empty list |
| Leaderboard.Filter | backend/routers/leaderboard.py:32 | on a list, the same as `FilterItems`; on other JSON values, what iterating them gives |
| Leaderboard.FilterItems | backend/routers/leaderboard.py:32 | on success at most as many items as the file holds; `FilterItemsExact`, `FilterItemsCount` and `FilterItemsAppend` state what it keeps |
| Leaderboard.FilterItemsExact | backend/routers/leaderboard.py:32 | every returned item has `benchmark == b`, and every such item is returned |
| Leaderboard.FilterItemsCount | backend/routers/leaderboard.py:32 | each matching item is returned as many times as it occurs; non-matching items are not returned |
| Leaderboard.FilterItemsAppend | backend/routers/leaderboard.py:32 | file order is kept |
| Leaderboard.FilterItemsMissingKey | backend/routers/leaderboard.py:32 | items without a `benchmark` key are never returned |
| Leaderboard.FilterItemsSucceeds | backend/routers/leaderboard.py:32 | the filter raises exactly when an item is not a dict |

## Left out

- Float arithmetic: numbers are exact decimals, so rounding happens only where the source formats or parses text. The float noise of binary `float` values is not modelled.
- `inf` and `nan` are not modelled.
- `repr` of a float is modelled as the shortest positional text. Python's exponent form for very large and very small values is not modelled.
- `float()` reads plain decimal text, with an optional sign and exponent. Python also accepts underscores, `inf` and `nan`; the model does not.
- The crystal geometry is not modelled. This covers `lattice_params_to_matrix`, `cart_to_frac_numpy`, `rotmat_to_rodrigues` and `rodrigues_to_rotmat`. The fractional coordinates that `to_cif_string` writes are a parameter of `OrgCrystal.MolecularCrystal.ToCifString`.
- `gen_cif` is not modelled, because it writes a file on disk and its text is that of `to_cif_string`.
- `generate_vocab` is the constant `VOCAB`. Its commented-out body is dead code.
- `__repr__` is not modelled.
- `build_mc_from_tokens` and `compute_density_for_item` (`backend/mc_adapter.py`) are not part of this model.
  - `parse_one_item` builds the crystal with `OrgCrystal.ParseTokens` on the entry's tokens.
  - The density callback is the parameter `computed`, `None` when it raises.
  - In `upload_dataset` and `dataset_landscape` the density computation is an oracle function.
- Storage (`backend/store.py`) is not part of this model. It is the class `Datasets.Store`: a map from path to JSON document, a map from path to raw text, and the list of meta paths given as a parameter.
- The uploaded bytes are text, so their UTF-8 decoding is not modelled.
- `json.loads` of the structures file is not modelled. Its result is a parameter, `None` when it raises.
- `uuid4` and `datetime.utcnow` are parameters (`freshId`, `now`).
- FastAPI routing, CORS, the health route and `crystal_cif` are not modelled. `crystal_cif` only composes storage reads with the adapter.
- Decimals.ParseFloat: there is no negative zero. Python reads `float("-0.00")` as `-0.0`, which `f"{v:.2f}"` writes as `-0.00` and `str`, `repr` and JSON write as `-0.0`. Here it reads as a zero without sign. A centre or rotation value spelled `- 0 . 0 0 0` therefore loses its `-` in three places: when it is tokenised again, in the `com`/`rod` fields that `parse_one_item` stores, and in CIF text.
- Decimals.FormatFixed: a zero `Decimal` is never written with a `-`, for the same reason. A value below zero that rounds to zero keeps its `-`, as in Python.
- Decimals.ParseInt: only ASCII digits are read. Python's `int()` also accepts underscores between digits and other Unicode decimal digits. This concerns the XYZ count line and the space-group token.
- Datasets.CreatedKey: `m.get("created_at") or ""` is modelled for string and missing values. Other JSON values count as `""` instead of raising `TypeError` when compared with strings.
- Datasets.DatasetLandscape: a stored manifest that is not a list of dicts gives `ManifestMalformed`. The source would raise in the loop instead.
- Datasets.SortNewestFirst is a function, not an in-place sort. It is insertion in turn, which gives the same stable order as `list.sort(reverse=True)`. The in-place `metas.sort` is modelled by its result.
- Leaderboard.ReadJson: reading and decoding the file is not modelled. Its JSON value is a parameter, `None` when the file is missing.
- Leaderboard.Filter: iterating a JSON dict gives its keys, and iterating a string gives its characters. Neither has `.get`, so only empty ones pass; the model follows this without modelling the keys themselves.
- The landscape loop models each failed density computation (`except Exception: continue`) as the oracle answering `None`. A missing `name` key in a manifest entry that needs a density is treated the same way.
