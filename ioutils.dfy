/**
 * Label and panel manipulation (utils/io_utils.py): metal-tag
 * canonicalisation, the marker reverse lookup, the row filters and
 * de-duplication of a stain panel, the mask-generation panel subset, and the
 * assignment of internal whole-slide-image ids. Reading the panel file, the
 * marker mapping file, the images and writing the id mapping are left out: the
 * rows, the mapping and the file list arrive as values.
 */
module IoUtils {
  import opened Common

  // ---------------------------------------------------------------------------
  // Metal-tag canonicalisation
  // ---------------------------------------------------------------------------

  /** `[A-Za-z]`. */
  predicate IsLetter(c: char)
  {
    'A' <= c <= 'Z' || 'a' <= c <= 'z'
  }

  /** `\d`, restricted to the ASCII digits. */
  predicate IsDigit(c: char)
  {
    '0' <= c <= '9'
  }

  /** `tag.replace(' ', '')`. */
  function RemoveSpaces(s: string): (r: string)
    ensures forall i :: 0 <= i < |r| ==> r[i] != ' '
  {
    if |s| == 0 then []
    else RemoveSpaces(s[..|s| - 1]) + (if s[|s| - 1] == ' ' then [] else [s[|s| - 1]])
  }

  /** `''.join(re.findall(r'[A-Za-z]', s))`: the letters of s, in order. */
  function Letters(s: string): (r: string)
    ensures forall i :: 0 <= i < |r| ==> IsLetter(r[i])
  {
    if |s| == 0 then []
    else Letters(s[..|s| - 1]) + (if IsLetter(s[|s| - 1]) then [s[|s| - 1]] else [])
  }

  /** `''.join(re.findall(r'\d', s))`: the digits of s, in order. */
  function Digits(s: string): (r: string)
    ensures forall i :: 0 <= i < |r| ==> IsDigit(r[i])
  {
    if |s| == 0 then []
    else Digits(s[..|s| - 1]) + (if IsDigit(s[|s| - 1]) then [s[|s| - 1]] else [])
  }

  /** One canonical metal tag: letters first, then digits, with spaces removed. */
  function CanonicalTag(tag: string): string
  {
    var t := RemoveSpaces(tag);
    Letters(t) + Digits(t)
  }

  lemma {:induction false} LettersAppend(a: string, b: string)
    ensures Letters(a + b) == Letters(a) + Letters(b)
  {
    if |b| == 0 {
      assert a + b == a;
    } else {
      assert (a + b)[..|a + b| - 1] == a + b[..|b| - 1];
      LettersAppend(a, b[..|b| - 1]);
    }
  }

  lemma {:induction false} DigitsAppend(a: string, b: string)
    ensures Digits(a + b) == Digits(a) + Digits(b)
  {
    if |b| == 0 {
      assert a + b == a;
    } else {
      assert (a + b)[..|a + b| - 1] == a + b[..|b| - 1];
      DigitsAppend(a, b[..|b| - 1]);
    }
  }

  lemma {:induction false} SpacesAppend(a: string, b: string)
    ensures RemoveSpaces(a + b) == RemoveSpaces(a) + RemoveSpaces(b)
  {
    if |b| == 0 {
      assert a + b == a;
    } else {
      assert (a + b)[..|a + b| - 1] == a + b[..|b| - 1];
      SpacesAppend(a, b[..|b| - 1]);
    }
  }

  /** Removing spaces changes neither the letters nor the digits. */
  lemma {:induction false} SpacesIrrelevant(s: string)
    ensures Letters(RemoveSpaces(s)) == Letters(s) && Digits(RemoveSpaces(s)) == Digits(s)
  {
    if |s| > 0 {
      var n := |s| - 1;
      SpacesIrrelevant(s[..n]);
      var last := if s[n] == ' ' then [] else [s[n]];
      LettersAppend(RemoveSpaces(s[..n]), last);
      DigitsAppend(RemoveSpaces(s[..n]), last);
      if s[n] != ' ' {
        assert Letters([s[n]]) == Letters([s[n]][..0]) + (if IsLetter(s[n]) then [s[n]] else []);
        assert Digits([s[n]]) == Digits([s[n]][..0]) + (if IsDigit(s[n]) then [s[n]] else []);
      }
    }
  }

  /** A string of letters only is its own letter sequence and has no digit. */
  lemma {:induction false} AllLetters(s: string)
    requires forall i :: 0 <= i < |s| ==> IsLetter(s[i])
    ensures Letters(s) == s && Digits(s) == []
  {
    if |s| > 0 {
      AllLetters(s[..|s| - 1]);
    }
  }

  /** A string of digits only is its own digit sequence and has no letter. */
  lemma {:induction false} AllDigits(s: string)
    requires forall i :: 0 <= i < |s| ==> IsDigit(s[i])
    ensures Digits(s) == s && Letters(s) == []
  {
    if |s| > 0 {
      AllDigits(s[..|s| - 1]);
    }
  }

  /** A string without spaces is unchanged by their removal. */
  lemma {:induction false} NoSpaces(s: string)
    requires forall i :: 0 <= i < |s| ==> s[i] != ' '
    ensures RemoveSpaces(s) == s
  {
    if |s| > 0 {
      NoSpaces(s[..|s| - 1]);
    }
  }

  /** A tag of the form letters-then-digits is already canonical. */
  lemma CanonicalFixesCanonical(letters: string, digits: string)
    requires forall i :: 0 <= i < |letters| ==> IsLetter(letters[i])
    requires forall i :: 0 <= i < |digits| ==> IsDigit(digits[i])
    ensures CanonicalTag(letters + digits) == letters + digits
  {
    var t := letters + digits;
    NoSpaces(t);
    LettersAppend(letters, digits);
    DigitsAppend(letters, digits);
    AllLetters(letters);
    AllDigits(digits);
  }

  /**
   * The canonical tag is the tag's letters in their order followed by its
   * digits in their order, and canonicalising twice changes nothing more.
   */
  lemma CanonicalTagSpec(tag: string)
    ensures CanonicalTag(tag) == Letters(tag) + Digits(tag)
    ensures CanonicalTag(CanonicalTag(tag)) == CanonicalTag(tag)
  {
    SpacesIrrelevant(tag);
    CanonicalFixesCanonical(Letters(tag), Digits(tag));
  }

  /** `canonicalize_metal_tags`: one canonical tag per input tag, in order. */
  method CanonicalizeMetalTags(tags: seq<string>) returns (canonicalized: seq<string>)
    ensures |canonicalized| == |tags|
    ensures forall i :: 0 <= i < |tags| ==> canonicalized[i] == CanonicalTag(tags[i])
  {
    canonicalized := [];
    for i := 0 to |tags|
      invariant |canonicalized| == i
      invariant forall k :: 0 <= k < i ==> canonicalized[k] == CanonicalTag(tags[k])
    {
      var tag := RemoveSpaces(tags[i]);
      var letters := Letters(tag);
      var numbers := Digits(tag);
      canonicalized := canonicalized + [letters + numbers];
    }
  }

  // ---------------------------------------------------------------------------
  // Canonical marker names
  // ---------------------------------------------------------------------------

  /** One entry of the marker mapping file: an optional display name and synonyms. */
  datatype MarkerInfo = MarkerInfo(display: Option<string>, synonyms: seq<string>)

  /** The mapping file's entries in file order (a YAML mapping keeps its order). */
  type MarkerMapping = seq<(string, MarkerInfo)>

  /** The names an entry maps to its key: the key itself, its display name and its synonyms. */
  predicate Names(entry: (string, MarkerInfo), v: string)
  {
    v == entry.0 || entry.1.display == Some(v) || v in entry.1.synonyms
  }

  /** `value_to_key[syn] = key` for each synonym in turn. */
  function AddSynonyms(m: map<string, string>, syns: seq<string>, key: string): (r: map<string, string>)
    ensures forall v :: v in r <==> v in m || v in syns
    ensures forall v :: v in r ==> r[v] == if v in syns then key else m[v]
  {
    if |syns| == 0 then m
    else
      var front := AddSynonyms(m, syns[..|syns| - 1], key);
      assert forall v :: v in syns <==> v in syns[..|syns| - 1] || v == syns[|syns| - 1];
      front[syns[|syns| - 1] := key]
  }

  /** The assignments one entry makes: key, then display name, then synonyms. */
  function AddEntry(m: map<string, string>, entry: (string, MarkerInfo)): (r: map<string, string>)
    ensures forall v :: v in r <==> v in m || Names(entry, v)
    ensures forall v :: v in r ==> r[v] == if Names(entry, v) then entry.0 else m[v]
  {
    var withKey := m[entry.0 := entry.0];
    var withDisplay := match entry.1.display
      case Some(d) => withKey[d := entry.0]
      case None => withKey;
    AddSynonyms(withDisplay, entry.1.synonyms, entry.0)
  }

  /** Entry i names v and no later entry does. */
  predicate LastNaming(mapping: MarkerMapping, i: int, v: string)
  {
    0 <= i < |mapping| && Names(mapping[i], v) && forall j :: i < j < |mapping| ==> !Names(mapping[j], v)
  }

  /** The reverse lookup the nested loops build, entry after entry. */
  function ReverseLookup(mapping: MarkerMapping): map<string, string>
  {
    if |mapping| == 0 then map[]
    else AddEntry(ReverseLookup(mapping[..|mapping| - 1]), mapping[|mapping| - 1])
  }

  /** The lookup knows exactly the names some entry gives. */
  lemma {:induction false} ReverseLookupDomain(mapping: MarkerMapping, v: string)
    ensures v in ReverseLookup(mapping) <==> exists i :: 0 <= i < |mapping| && Names(mapping[i], v)
  {
    if |mapping| > 0 {
      var n := |mapping| - 1;
      var front := mapping[..n];
      ReverseLookupDomain(front, v);
      if exists i :: 0 <= i < n && Names(front[i], v) {
        var i :| 0 <= i < n && Names(front[i], v);
        assert Names(mapping[i], v);
      }
      if exists i :: 0 <= i < |mapping| && Names(mapping[i], v) {
        var i :| 0 <= i < |mapping| && Names(mapping[i], v);
        if i < n {
          assert Names(front[i], v);
        }
      }
    }
  }

  /** Each name maps to the key of the last entry naming it: later assignments overwrite earlier ones. */
  lemma {:induction false} ReverseLookupValue(mapping: MarkerMapping, i: int, v: string)
    requires LastNaming(mapping, i, v)
    ensures v in ReverseLookup(mapping) && ReverseLookup(mapping)[v] == mapping[i].0
  {
    var n := |mapping| - 1;
    var front := mapping[..n];
    var earlier := ReverseLookup(front);
    assert ReverseLookup(mapping) == AddEntry(earlier, mapping[n]);
    if i < n {
      assert LastNaming(front, i, v) by {
        forall j | i < j < n ensures !Names(front[j], v) {
          assert front[j] == mapping[j];
        }
      }
      ReverseLookupValue(front, i, v);
      assert !Names(mapping[n], v);
    }
  }

  /** The nested loops filling `value_to_key`: for every entry, its key, display name and synonyms. */
  method BuildReverseLookup(mapping: MarkerMapping) returns (valueToKey: map<string, string>)
    ensures valueToKey == ReverseLookup(mapping)
  {
    valueToKey := map[];
    for e := 0 to |mapping|
      invariant valueToKey == ReverseLookup(mapping[..e])
    {
      assert mapping[..e + 1][..e] == mapping[..e];
      var (key, info) := mapping[e];
      ghost var before := valueToKey;
      valueToKey := valueToKey[key := key];
      if info.display.Some? {
        valueToKey := valueToKey[info.display.value := key];
      }
      ghost var afterDisplay := valueToKey;
      for k := 0 to |info.synonyms|
        invariant valueToKey == AddSynonyms(afterDisplay, info.synonyms[..k], key)
      {
        assert info.synonyms[..k + 1][..k] == info.synonyms[..k];
        valueToKey := valueToKey[info.synonyms[k] := key];
      }
      assert info.synonyms[..|info.synonyms|] == info.synonyms;
      assert valueToKey == AddEntry(before, mapping[e]);
    }
    assert mapping[..|mapping|] == mapping;
  }

  /** `[value_to_key.get(m, m) for m in markers]`. */
  function MapMarkers(lookup: map<string, string>, markers: seq<string>): (r: seq<string>)
    ensures |r| == |markers|
    ensures forall i :: 0 <= i < |markers| ==> r[i] == if markers[i] in lookup then lookup[markers[i]] else markers[i]
  {
    seq(|markers|, i requires 0 <= i < |markers| =>
      if markers[i] in lookup then lookup[markers[i]] else markers[i])
  }

  /**
   * `canonicalize_markers` with its mapping given: one name per marker, a
   * marker that no entry names kept as it is.
   */
  method CanonicalizeMarkers(mapping: MarkerMapping, markers: seq<string>) returns (canonical: seq<string>)
    ensures canonical == MapMarkers(ReverseLookup(mapping), markers)
  {
    var valueToKey := BuildReverseLookup(mapping);
    canonical := MapMarkers(valueToKey, markers);
  }

  /** A marker no entry names keeps its own name; a named one becomes the last naming entry's key. */
  lemma CanonicalMarkerOf(mapping: MarkerMapping, markers: seq<string>, k: nat)
    requires k < |markers|
    ensures (forall i :: 0 <= i < |mapping| ==> !Names(mapping[i], markers[k])) ==>
              MapMarkers(ReverseLookup(mapping), markers)[k] == markers[k]
    ensures forall i :: LastNaming(mapping, i, markers[k]) ==>
              MapMarkers(ReverseLookup(mapping), markers)[k] == mapping[i].0
  {
    ReverseLookupDomain(mapping, markers[k]);
    forall i | LastNaming(mapping, i, markers[k])
      ensures MapMarkers(ReverseLookup(mapping), markers)[k] == mapping[i].0
    {
      ReverseLookupValue(mapping, i, markers[k]);
    }
  }

  // ---------------------------------------------------------------------------
  // The stain panel
  // ---------------------------------------------------------------------------

  /** One panel row: tag and marker as read, and their canonical forms. */
  datatype PanelRow = PanelRow(metalTag: string, marker: string, canonicalMarker: string, canonicalMetalTag: string)

  /** `panel[mask]` for a row predicate: the rows that satisfy it, in order. */
  function Filter(rows: seq<PanelRow>, keep: PanelRow -> bool): (r: seq<PanelRow>)
    ensures |r| <= |rows|
  {
    if |rows| == 0 then []
    else Filter(rows[..|rows| - 1], keep) + (if keep(rows[|rows| - 1]) then [rows[|rows| - 1]] else [])
  }

  /** A row is in the filtered rows exactly when it is one of the rows and passes. */
  lemma {:induction false} FilterMembers(rows: seq<PanelRow>, keep: PanelRow -> bool, row: PanelRow)
    ensures row in Filter(rows, keep) <==> row in rows && keep(row)
  {
    if |rows| > 0 {
      var n := |rows| - 1;
      FilterMembers(rows[..n], keep, row);
      assert rows == rows[..n] + [rows[n]];
    }
  }

  /** Filtering keeps the order of the rows: it distributes over concatenation. */
  lemma {:induction false} FilterAppend(a: seq<PanelRow>, b: seq<PanelRow>, keep: PanelRow -> bool)
    ensures Filter(a + b, keep) == Filter(a, keep) + Filter(b, keep)
  {
    if |b| == 0 {
      assert a + b == a;
    } else {
      assert (a + b)[..|a + b| - 1] == a + b[..|b| - 1];
      FilterAppend(a, b[..|b| - 1], keep);
    }
  }

  /** A filter every row passes keeps them all. */
  lemma {:induction false} FilterKeepsAll(rows: seq<PanelRow>, keep: PanelRow -> bool)
    requires forall i :: 0 <= i < |rows| ==> keep(rows[i])
    ensures Filter(rows, keep) == rows
  {
    if |rows| > 0 {
      FilterKeepsAll(rows[..|rows| - 1], keep);
    }
  }

  /** The rows with the tag and marker columns as read and the two canonical columns added. */
  function PanelRows(raw: seq<(string, string)>, lookup: map<string, string>): (r: seq<PanelRow>)
    ensures |r| == |raw|
  {
    var markers := seq(|raw|, i requires 0 <= i < |raw| => raw[i].1);
    var canonical := MapMarkers(lookup, markers);
    seq(|raw|, i requires 0 <= i < |raw| => PanelRow(raw[i].0, raw[i].1, canonical[i], CanonicalTag(raw[i].0)))
  }

  /** Some row carries the metal tag t. */
  predicate HasTag(rows: seq<PanelRow>, t: string)
  {
    exists i :: 0 <= i < |rows| && rows[i].metalTag == t
  }

  /** `drop_duplicates(subset = 'metal_tag', keep = 'first')`. */
  function DropDuplicates(rows: seq<PanelRow>): seq<PanelRow>
  {
    if |rows| == 0 then []
    else
      var front := DropDuplicates(rows[..|rows| - 1]);
      var last := rows[|rows| - 1];
      if HasTag(front, last.metalTag) then front else front + [last]
  }

  /** A row appended to earlier rows: the tags are the earlier ones and its own. */
  lemma HasTagSnoc(rows: seq<PanelRow>, row: PanelRow, t: string)
    ensures HasTag(rows + [row], t) <==> HasTag(rows, t) || row.metalTag == t
  {
    if HasTag(rows, t) {
      var i :| 0 <= i < |rows| && rows[i].metalTag == t;
      assert (rows + [row])[i] == rows[i];
    }
    if row.metalTag == t {
      assert (rows + [row])[|rows|] == row;
    }
  }

  /** De-duplication keeps every tag of the input and adds none. */
  lemma {:induction false} DropDuplicatesTags(rows: seq<PanelRow>, t: string)
    ensures HasTag(DropDuplicates(rows), t) <==> HasTag(rows, t)
  {
    if |rows| > 0 {
      var n := |rows| - 1;
      var front := DropDuplicates(rows[..n]);
      DropDuplicatesTags(rows[..n], t);
      assert rows == rows[..n] + [rows[n]];
      HasTagSnoc(rows[..n], rows[n], t);
      HasTagSnoc(front, rows[n], t);
      DropDuplicatesTags(rows[..n], rows[n].metalTag);
    }
  }

  /** No two rows share a metal tag. */
  predicate UniqueTags(rows: seq<PanelRow>)
  {
    forall i, j :: 0 <= i < j < |rows| ==> rows[i].metalTag != rows[j].metalTag
  }

  /** After de-duplication no two rows share a metal tag. */
  lemma {:induction false} DropDuplicatesUnique(rows: seq<PanelRow>)
    ensures UniqueTags(DropDuplicates(rows))
  {
    if |rows| > 0 {
      var n := |rows| - 1;
      var front := DropDuplicates(rows[..n]);
      DropDuplicatesUnique(rows[..n]);
      if !HasTag(front, rows[n].metalTag) {
        var r := front + [rows[n]];
        assert DropDuplicates(rows) == r;
        forall i, j | 0 <= i < j < |r| ensures r[i].metalTag != r[j].metalTag {
          assert r[i] == front[i];
          if j < |front| {
            assert r[j] == front[j];
            assert front[i].metalTag != front[j].metalTag;
          } else {
            assert r[j] == rows[n];
            assert !(0 <= i < |front| && front[i].metalTag == rows[n].metalTag);
          }
        }
      }
    }
  }

  /** The index of the first row carrying its tag. */
  predicate FirstWithTag(rows: seq<PanelRow>, i: int)
  {
    0 <= i < |rows| && forall j :: 0 <= j < i ==> rows[j].metalTag != rows[i].metalTag
  }

  /** Each kept row is the first input row with its tag: `keep = 'first'`. */
  lemma {:induction false} DropDuplicatesKeepsFirst(rows: seq<PanelRow>, k: int) returns (i: int)
    requires 0 <= k < |DropDuplicates(rows)|
    ensures FirstWithTag(rows, i) && DropDuplicates(rows)[k] == rows[i]
  {
    var n := |rows| - 1;
    var front := DropDuplicates(rows[..n]);
    if k < |front| {
      i := DropDuplicatesKeepsFirst(rows[..n], k);
      assert FirstWithTag(rows, i);
    } else {
      i := n;
      DropDuplicatesTags(rows[..n], rows[n].metalTag);
      forall j | 0 <= j < n ensures rows[j].metalTag != rows[n].metalTag {
        assert rows[..n][j] == rows[j];
      }
    }
  }

  /** The first row carrying each tag is kept. */
  lemma {:induction false} DropDuplicatesKeepsEveryFirst(rows: seq<PanelRow>, i: int)
    requires FirstWithTag(rows, i)
    ensures rows[i] in DropDuplicates(rows)
  {
    var n := |rows| - 1;
    var front := DropDuplicates(rows[..n]);
    if i < n {
      assert FirstWithTag(rows[..n], i);
      DropDuplicatesKeepsEveryFirst(rows[..n], i);
      assert rows[..n][i] == rows[i];
    } else {
      DropDuplicatesTags(rows[..n], rows[n].metalTag);
      assert DropDuplicates(rows) == front + [rows[n]];
    }
  }

  /** The rows whose canonical metal tag the image carries. */
  function PresentRows(panel: seq<PanelRow>, presentTags: seq<string>): (r: seq<PanelRow>)
    ensures forall row :: row in r <==> row in panel && row.canonicalMetalTag in presentTags
  {
    var keep := (row: PanelRow) => row.canonicalMetalTag in presentTags;
    forall row ensures row in Filter(panel, keep) <==> row in panel && keep(row) {
      FilterMembers(panel, keep, row);
    }
    Filter(panel, keep)
  }

  /** The row predicate `~panel['marker'].isin(background_stains)`. */
  function NotStain(backgroundStains: seq<string>): PanelRow -> bool
  {
    (row: PanelRow) => row.marker !in backgroundStains
  }

  /**
   * The background-stain filter as written: it runs only when the stain list
   * is empty, and then keeps the rows whose marker is not in that empty list.
   */
  function StainFilterAsWritten(rows: seq<PanelRow>, backgroundStains: seq<string>): seq<PanelRow>
  {
    if |backgroundStains| == 0 then Filter(rows, NotStain(backgroundStains)) else rows
  }

  /** As written, the background-stain step never removes a row, whatever stains are configured. */
  lemma StainFilterRemovesNothing(rows: seq<PanelRow>, backgroundStains: seq<string>)
    ensures StainFilterAsWritten(rows, backgroundStains) == rows
  {
    if |backgroundStains| == 0 {
      FilterKeepsAll(rows, NotStain(backgroundStains));
    }
  }

  /** A configured stain survives the filter as written. */
  lemma StainSurvivesAsWritten()
    ensures var row := PanelRow("Ar80", "Ar80", "Ar80", "Ar80");
            StainFilterAsWritten([row], ["Ar80"]) == [row] && row.marker in ["Ar80"]
  {
  }

  /** The background-stain filter as intended: drop the configured stains' rows when any are listed. */
  function StainFilter(rows: seq<PanelRow>, backgroundStains: seq<string>): seq<PanelRow>
  {
    if |backgroundStains| > 0 then Filter(rows, NotStain(backgroundStains)) else rows
  }

  /**
   * The intended filter is the marker filter in both branches (an empty list
   * removes nothing), so it keeps the surviving rows in order, and a row
   * survives exactly when its marker is not a configured stain.
   */
  lemma StainFilterSpec(rows: seq<PanelRow>, backgroundStains: seq<string>)
    ensures StainFilter(rows, backgroundStains) == Filter(rows, NotStain(backgroundStains))
    ensures forall row :: row in StainFilter(rows, backgroundStains) <==> row in rows && row.marker !in backgroundStains
  {
    if |backgroundStains| == 0 {
      FilterKeepsAll(rows, NotStain(backgroundStains));
    }
    forall row ensures row in Filter(rows, NotStain(backgroundStains)) <==> row in rows && row.marker !in backgroundStains {
      FilterMembers(rows, NotStain(backgroundStains), row);
    }
  }

  /**
   * The row filters and de-duplication of `load_panel` as intended: rows whose
   * canonical tag the image carries, the corrected background-stain filter,
   * and the first row per tag.
   */
  function LoadPanel(raw: seq<(string, string)>, lookup: map<string, string>, presentTags: seq<string>,
                     backgroundStains: seq<string>): seq<PanelRow>
  {
    var present := PresentRows(PanelRows(raw, lookup), presentTags);
    DropDuplicates(StainFilter(present, backgroundStains))
  }

  /**
   * The loaded panel holds exactly one row per tag among the present rows that
   * are not background stains (the first such row); every kept row's
   * canonical tag is present and its marker is not a stain.
   */
  lemma LoadPanelSpec(raw: seq<(string, string)>, lookup: map<string, string>, presentTags: seq<string>,
                      backgroundStains: seq<string>)
    ensures var kept := Filter(PresentRows(PanelRows(raw, lookup), presentTags), NotStain(backgroundStains));
            LoadPanel(raw, lookup, presentTags, backgroundStains) == DropDuplicates(kept)
    ensures var r := LoadPanel(raw, lookup, presentTags, backgroundStains);
            forall k :: 0 <= k < |r| ==> r[k].canonicalMetalTag in presentTags && r[k].marker !in backgroundStains
    ensures UniqueTags(LoadPanel(raw, lookup, presentTags, backgroundStains))
    ensures var r := LoadPanel(raw, lookup, presentTags, backgroundStains);
            var kept := Filter(PresentRows(PanelRows(raw, lookup), presentTags), NotStain(backgroundStains));
            forall t :: HasTag(r, t) <==> HasTag(kept, t)
  {
    var present := PresentRows(PanelRows(raw, lookup), presentTags);
    var kept := StainFilter(present, backgroundStains);
    StainFilterSpec(present, backgroundStains);
    DropDuplicatesUnique(kept);
    var r := DropDuplicates(kept);
    forall k | 0 <= k < |r| ensures r[k].canonicalMetalTag in presentTags && r[k].marker !in backgroundStains {
      var i := DropDuplicatesKeepsFirst(kept, k);
      assert kept[i] in kept;
    }
    forall t ensures HasTag(r, t) <==> HasTag(kept, t) {
      DropDuplicatesTags(kept, t);
    }
  }

  /** `load_panel`'s row filters as written, with the stain filter that never runs on a listed stain. */
  function LoadPanelAsWritten(raw: seq<(string, string)>, lookup: map<string, string>, presentTags: seq<string>,
                              backgroundStains: seq<string>): seq<PanelRow>
  {
    var present := PresentRows(PanelRows(raw, lookup), presentTags);
    DropDuplicates(StainFilterAsWritten(present, backgroundStains))
  }

  /**
   * As written the loaded panel is the first row per tag among the present
   * rows, stains included: every kept row's canonical tag is present, the tags
   * are unique and are those of the present rows, and the first present row
   * of each tag is kept, so a row whose marker is a listed stain survives
   * where the intended panel drops it.
   */
  lemma LoadPanelAsWrittenSpec(raw: seq<(string, string)>, lookup: map<string, string>, presentTags: seq<string>,
                               backgroundStains: seq<string>)
    ensures var present := PresentRows(PanelRows(raw, lookup), presentTags);
            LoadPanelAsWritten(raw, lookup, presentTags, backgroundStains) == DropDuplicates(present)
    ensures var r := LoadPanelAsWritten(raw, lookup, presentTags, backgroundStains);
            forall k :: 0 <= k < |r| ==> r[k].canonicalMetalTag in presentTags
    ensures UniqueTags(LoadPanelAsWritten(raw, lookup, presentTags, backgroundStains))
    ensures var r := LoadPanelAsWritten(raw, lookup, presentTags, backgroundStains);
            var present := PresentRows(PanelRows(raw, lookup), presentTags);
            forall t :: HasTag(r, t) <==> HasTag(present, t)
    ensures var present := PresentRows(PanelRows(raw, lookup), presentTags);
            forall i :: FirstWithTag(present, i) ==>
              present[i] in LoadPanelAsWritten(raw, lookup, presentTags, backgroundStains) &&
              (present[i].marker in backgroundStains ==> present[i] !in LoadPanel(raw, lookup, presentTags, backgroundStains))
  {
    var present := PresentRows(PanelRows(raw, lookup), presentTags);
    StainFilterRemovesNothing(present, backgroundStains);
    var r := DropDuplicates(present);
    DropDuplicatesUnique(present);
    forall k | 0 <= k < |r| ensures r[k].canonicalMetalTag in presentTags {
      var i := DropDuplicatesKeepsFirst(present, k);
      assert present[i] in present;
    }
    forall t ensures HasTag(r, t) <==> HasTag(present, t) {
      DropDuplicatesTags(present, t);
    }
    LoadPanelSpec(raw, lookup, presentTags, backgroundStains);
    forall i | FirstWithTag(present, i)
      ensures present[i] in r &&
              (present[i].marker in backgroundStains ==> present[i] !in LoadPanel(raw, lookup, presentTags, backgroundStains))
    {
      DropDuplicatesKeepsEveryFirst(present, i);
    }
  }

  /**
   * `load_mask_generation_panel`: the whole panel when no marker is configured,
   * otherwise the rows whose canonical marker is listed, in their order.
   */
  function MaskGenerationPanel(panel: seq<PanelRow>, maskMarkers: seq<string>): (r: seq<PanelRow>)
    ensures |maskMarkers| == 0 ==> r == panel
    ensures |maskMarkers| > 0 ==> forall row :: row in r <==> row in panel && row.canonicalMarker in maskMarkers
  {
    if |maskMarkers| > 0 then
      var keep := (row: PanelRow) => row.canonicalMarker in maskMarkers;
      forall row ensures row in Filter(panel, keep) <==> row in panel && keep(row) {
        FilterMembers(panel, keep, row);
      }
      Filter(panel, keep)
    else panel
  }

  /** The subset keeps the panel's order: subsetting a concatenation subsets each part. */
  lemma MaskGenerationPanelOrder(a: seq<PanelRow>, b: seq<PanelRow>, maskMarkers: seq<string>)
    ensures MaskGenerationPanel(a + b, maskMarkers) == MaskGenerationPanel(a, maskMarkers) + MaskGenerationPanel(b, maskMarkers)
  {
    if |maskMarkers| > 0 {
      FilterAppend(a, b, (row: PanelRow) => row.canonicalMarker in maskMarkers);
    }
  }

  // ---------------------------------------------------------------------------
  // Whole-slide-image ids
  // ---------------------------------------------------------------------------

  /** Python's `a < b` on strings: lexicographic by code point. */
  predicate StrLess(a: string, b: string)
    decreases |a|
  {
    if |a| == 0 then |b| > 0
    else if |b| == 0 then false
    else if a[0] != b[0] then a[0] < b[0]
    else StrLess(a[1..], b[1..])
  }

  predicate StrLessEq(a: string, b: string)
  {
    a == b || StrLess(a, b)
  }

  lemma {:induction false} StrLessTotal(a: string, b: string)
    ensures StrLessEq(a, b) || StrLess(b, a)
    decreases |a|
  {
    if |a| > 0 && |b| > 0 && a[0] == b[0] {
      StrLessTotal(a[1..], b[1..]);
      if a[1..] == b[1..] {
        assert a == [a[0]] + a[1..] && b == [b[0]] + b[1..];
      }
    }
  }

  lemma {:induction false} StrLessTrans(a: string, b: string, c: string)
    requires StrLess(a, b) && StrLess(b, c)
    ensures StrLess(a, c)
    decreases |a|
  {
    if |a| > 0 && a[0] == b[0] && b[0] == c[0] {
      StrLessTrans(a[1..], b[1..], c[1..]);
    }
  }

  lemma {:induction false} StrLessIrreflexive(a: string)
    ensures !StrLess(a, a)
    decreases |a|
  {
    if |a| > 0 {
      StrLessIrreflexive(a[1..]);
    }
  }

  predicate Sorted(s: seq<string>)
  {
    forall i, j :: 0 <= i < j < |s| ==> StrLessEq(s[i], s[j])
  }

  lemma StrLessEqTrans(a: string, b: string, c: string)
    requires StrLessEq(a, b) && StrLessEq(b, c)
    ensures StrLessEq(a, c)
  {
    if a != b && b != c {
      StrLessTrans(a, b, c);
    }
  }

  /** One step of insertion: x placed before the first element not below it. */
  function Insert(x: string, s: seq<string>): seq<string>
  {
    if |s| == 0 then [x]
    else if StrLessEq(x, s[0]) then [x] + s
    else [s[0]] + Insert(x, s[1..])
  }

  /** Insertion adds x and nothing else. */
  lemma {:induction false} InsertMultiset(x: string, s: seq<string>)
    ensures multiset(Insert(x, s)) == multiset(s) + multiset{x}
  {
    if |s| > 0 && !StrLessEq(x, s[0]) {
      InsertMultiset(x, s[1..]);
      assert s == [s[0]] + s[1..];
    }
  }

  /** A head no greater than any element of a sorted tail gives a sorted sequence. */
  lemma SortedCons(h: string, t: seq<string>)
    requires Sorted(t) && forall j :: 0 <= j < |t| ==> StrLessEq(h, t[j])
    ensures Sorted([h] + t)
  {
    var r := [h] + t;
    forall i, j | 0 <= i < j < |r| ensures StrLessEq(r[i], r[j]) {
      assert r[j] == t[j - 1];
      if i > 0 {
        assert r[i] == t[i - 1];
      }
    }
  }

  /** Every element of an insertion result is x or an element of s. */
  lemma InsertFrom(x: string, s: seq<string>, j: int)
    requires 0 <= j < |Insert(x, s)|
    ensures Insert(x, s)[j] == x || Insert(x, s)[j] in s
  {
    InsertMultiset(x, s);
    assert Insert(x, s)[j] in multiset(Insert(x, s));
  }

  /** Insertion into a sorted sequence keeps it sorted. */
  lemma {:induction false} InsertSorted(x: string, s: seq<string>)
    requires Sorted(s)
    ensures Sorted(Insert(x, s))
  {
    if |s| == 0 {
    } else if StrLessEq(x, s[0]) {
      forall j | 0 <= j < |s| ensures StrLessEq(x, s[j]) {
        if j > 0 {
          StrLessEqTrans(x, s[0], s[j]);
        }
      }
      SortedCons(x, s);
    } else {
      StrLessTotal(x, s[0]);
      var tail := s[1..];
      var rest := Insert(x, tail);
      InsertSorted(x, tail);
      forall j | 0 <= j < |rest| ensures StrLessEq(s[0], rest[j]) {
        InsertFrom(x, tail, j);
        if rest[j] != x {
          var k :| 0 <= k < |tail| && tail[k] == rest[j];
          assert s[k + 1] == rest[j];
        }
      }
      SortedCons(s[0], rest);
    }
  }

  /** `sorted(img_files)`: the files in ascending order, each one kept. */
  function SortFiles(files: seq<string>): (r: seq<string>)
    ensures Sorted(r) && multiset(r) == multiset(files)
  {
    if |files| == 0 then []
    else
      var n := |files| - 1;
      assert files == files[..n] + [files[n]];
      var front := SortFiles(files[..n]);
      InsertSorted(files[n], front);
      InsertMultiset(files[n], front);
      Insert(files[n], front)
  }

  function DigitChar(d: nat): char
    requires d < 10
  {
    "0123456789"[d]
  }

  /** `str(n)`: the decimal digits of n. */
  function NatToString(n: nat): string
  {
    if n < 10 then [DigitChar(n)] else NatToString(n / 10) + [DigitChar(n % 10)]
  }

  /** Reading decimal digits back. */
  function ParseNat(s: string): nat
  {
    if |s| == 0 then 0
    else
      var c := s[|s| - 1];
      ParseNat(s[..|s| - 1]) * 10 + (if '0' <= c <= '9' then (c as int - '0' as int) else 0)
  }

  lemma {:induction false} ParseNatToString(n: nat)
    ensures ParseNat(NatToString(n)) == n
  {
    if n >= 10 {
      ParseNatToString(n / 10);
      var s := NatToString(n);
      assert s[..|s| - 1] == NatToString(n / 10);
    }
  }

  /** The internal id `wsi_i`. */
  function WsiId(i: nat): string
  {
    "wsi_" + NatToString(i)
  }

  /** Distinct positions get distinct ids. */
  lemma WsiIdInjective(i: nat, j: nat)
    requires WsiId(i) == WsiId(j)
    ensures i == j
  {
    assert WsiId(i)[4..] == NatToString(i);
    assert WsiId(j)[4..] == NatToString(j);
    ParseNatToString(i);
    ParseNatToString(j);
  }

  datatype WsiEntry = WsiEntry(wsiId: string, filePath: string)

  /**
   * `generate_wsi_id_mapping` without the file write: the files sorted, the
   * i-th one paired with the id `wsi_i`.
   */
  function WsiIdMapping(files: seq<string>): (r: seq<WsiEntry>)
    ensures |r| == |files|
    ensures forall i :: 0 <= i < |r| ==> r[i].wsiId == WsiId(i)
    ensures Sorted(seq(|r|, i requires 0 <= i < |r| => r[i].filePath))
    ensures multiset(seq(|r|, i requires 0 <= i < |r| => r[i].filePath)) == multiset(files)
  {
    var sorted := SortFiles(files);
    assert |sorted| == |multiset(sorted)| == |multiset(files)| == |files|;
    var r := seq(|sorted|, i requires 0 <= i < |sorted| => WsiEntry(WsiId(i), sorted[i]));
    assert seq(|r|, i requires 0 <= i < |r| => r[i].filePath) == sorted;
    r
  }

  /** No two entries of the mapping share an id. */
  lemma WsiIdsDistinct(files: seq<string>)
    ensures var r := WsiIdMapping(files);
            forall i, j :: 0 <= i < j < |r| ==> r[i].wsiId != r[j].wsiId
  {
    var r := WsiIdMapping(files);
    forall i, j | 0 <= i < j < |r| ensures r[i].wsiId != r[j].wsiId {
      if r[i].wsiId == r[j].wsiId {
        WsiIdInjective(i, j);
      }
    }
  }
}
