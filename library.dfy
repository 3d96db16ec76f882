/**
 * The component-library service: the name a new library gets from the
 * prompt, the component rows a generation is saved as, and which files a
 * library export archive holds.
 *
 * The database is left out; a library as the export reads it is a value
 * (`Stored`), `sanitize-filename` is a parameter, and so is the formatted
 * date the fallback name carries.
 */
module Library {
  import opened Wrappers
  import opened Text
  import Extractor

  // ===========================================================================
  // generateLibraryName
  // ===========================================================================

  /** The characters `/[^a-z0-9\s]/g` does not delete. */
  predicate Allowed(c: char) {
    'a' <= c <= 'z' || '0' <= c <= '9' || IsWs(c)
  }

  /** `s.replace(/[^a-z0-9\s]/g, '')`. */
  function KeepAllowed(s: string): (r: string)
    ensures forall i :: 0 <= i < |r| ==> Allowed(r[i])
  {
    if s == [] then []
    else KeepAllowed(s[..|s| - 1]) + (if Allowed(s[|s| - 1]) then [s[|s| - 1]] else [])
  }

  /**
   * `s.split(/\s+/)`: the pieces between maximal runs of whitespace; a
   * leading or trailing run gives an empty first or last piece.
   */
  function SplitWs(s: string): (r: seq<string>)
    ensures |r| >= 1
    ensures forall i :: 0 <= i < |r| ==> NoWs(r[i])
    decreases |s|
  {
    if s == [] then [[]]
    else if IsWs(s[0]) then
      TrimStartShape(s[1..]);
      [[]] + SplitWs(TrimStart(s[1..]))
    else
      var rest := SplitWs(s[1..]);
      [[s[0]] + rest[0]] + rest[1..]
  }

  /** The words `generateLibraryName` ignores. */
  const StopWords: seq<string> := ["create", "make", "with", "using"]

  /** The filter: longer than three characters and not a stop word. */
  predicate Meaningful(word: string) {
    |word| > 3 && word !in StopWords
  }

  function Meaningfuls(words: seq<string>): (r: seq<string>)
    ensures forall i :: 0 <= i < |r| ==> Meaningful(r[i])
  {
    if words == [] then []
    else Meaningfuls(words[..|words| - 1]) + (if Meaningful(words[|words| - 1]) then [words[|words| - 1]] else [])
  }

  /** The words of the prompt that can name the library, in prompt order. */
  function KeptWords(prompt: string): seq<string> {
    Meaningfuls(SplitWs(KeepAllowed(Lower(prompt))))
  }

  /** `word.charAt(0).toUpperCase() + word.slice(1)`. */
  function Capitalize(word: string): (r: string)
    ensures |r| == |word|
  {
    if word == [] then [] else [UpperChar(word[0])] + word[1..]
  }

  function CapitalizeAll(words: seq<string>): (r: seq<string>)
    ensures |r| == |words|
    ensures forall i :: 0 <= i < |words| ==> r[i] == Capitalize(words[i])
  {
    if words == [] then [] else [Capitalize(words[0])] + CapitalizeAll(words[1..])
  }

  /** The name used when the prompt has no usable word. */
  function FallbackName(date: string): string {
    "Library " + date
  }

  /** `generateLibraryName(prompt)`, with `new Date().toLocaleDateString()` given as `date`. */
  function GenerateLibraryName(prompt: string, date: string): string {
    var words := KeptWords(prompt);
    if |words| == 0 then FallbackName(date)
    else
      var name := Join(CapitalizeAll(words[..if |words| < 3 then |words| else 3]), " ");
      if name == [] then FallbackName(date) else name
  }

  /** A word is kept exactly when it is a piece of the cleaned prompt and meaningful. */
  lemma {:induction false} MeaningfulsMembers(words: seq<string>, w: string)
    ensures w in Meaningfuls(words) <==> w in words && Meaningful(w)
  {
    if words != [] {
      var init := words[..|words| - 1];
      MeaningfulsMembers(init, w);
      assert words == init + [words[|words| - 1]];
    }
  }

  /** The cleaned prompt holds only lower-case ASCII letters, digits and whitespace. */
  lemma {:induction false} KeptWordsAlphanumeric(prompt: string, w: string)
    requires w in KeptWords(prompt)
    ensures |w| > 3 && w !in StopWords
    ensures forall i :: 0 <= i < |w| ==> 'a' <= w[i] <= 'z' || '0' <= w[i] <= '9'
  {
    var cleaned := KeepAllowed(Lower(prompt));
    MeaningfulsMembers(SplitWs(cleaned), w);
    PiecesOfAllowed(cleaned);
  }

  /** Every piece of a split of allowed characters is made of letters and digits. */
  lemma {:induction false} PiecesOfAllowed(s: string)
    requires forall i :: 0 <= i < |s| ==> Allowed(s[i])
    ensures forall p, i :: p in SplitWs(s) && 0 <= i < |p| ==> 'a' <= p[i] <= 'z' || '0' <= p[i] <= '9'
    decreases |s|
  {
    if s != [] {
      if IsWs(s[0]) {
        TrimStartShape(s[1..]);
        var t := TrimStart(s[1..]);
        assert forall i :: 0 <= i < |t| ==> t[i] == s[1..][|s[1..]| - |t| + i];
        PiecesOfAllowed(t);
      } else {
        PiecesOfAllowed(s[1..]);
        var rest := SplitWs(s[1..]);
        assert SplitWs(s) == [[s[0]] + rest[0]] + rest[1..];
        forall p, i | p in SplitWs(s) && 0 <= i < |p|
          ensures 'a' <= p[i] <= 'z' || '0' <= p[i] <= '9'
        {
          if p != [s[0]] + rest[0] {
            assert p in rest;
          } else if i > 0 {
            assert p[i] == rest[0][i - 1];
          }
        }
      }
    }
  }

  /** Without a usable word the name is the dated fallback. */
  lemma NoWordsFallback(prompt: string, date: string)
    requires KeptWords(prompt) == []
    ensures GenerateLibraryName(prompt, date) == FallbackName(date)
  {
  }

  /**
   * With usable words, the name is the first three of them (fewer when
   * there are fewer), each capitalised, separated by single spaces: splitting
   * it on the space gives back exactly those words.
   */
  lemma LibraryNameWords(prompt: string, date: string)
    requires KeptWords(prompt) != []
    ensures var words := KeptWords(prompt);
      var n := if |words| < 3 then |words| else 3;
      && Split(GenerateLibraryName(prompt, date), ' ') == CapitalizeAll(words[..n])
      && 1 <= |Split(GenerateLibraryName(prompt, date), ' ')| <= 3
  {
    var words := KeptWords(prompt);
    var n := if |words| < 3 then |words| else 3;
    var caps := CapitalizeAll(words[..n]);
    forall i | 0 <= i < |caps|
      ensures ' ' !in caps[i]
    {
      assert words[..n][i] in words;
      KeptWordsAlphanumeric(prompt, words[..n][i]);
    }
    assert caps[0] != [] by {
      assert words[..n][0] in words;
      KeptWordsAlphanumeric(prompt, words[..n][0]);
    }
    JoinNonEmpty(caps, " ");
    SplitJoin(caps, ' ');
  }

  /** Joining pieces whose first one is not empty gives a non-empty string. */
  lemma JoinNonEmpty(parts: seq<string>, sep: string)
    requires |parts| >= 1 && parts[0] != []
    ensures Join(parts, sep) != []
  {
  }

  /** Each word of the name is a kept word with its first letter upper-cased and the rest unchanged. */
  lemma CapitalizeShape(word: string)
    requires word != []
    ensures Capitalize(word)[0] == UpperChar(word[0])
    ensures Capitalize(word)[1..] == word[1..]
  {
  }

  // ===========================================================================
  // Component rows
  // ===========================================================================

  /** A row of the `components` table as the service inserts it. */
  datatype ComponentRow = ComponentRow(userId: string, name: string, code: string, category: string)

  /** The rows `createLibraryFromGeneration` inserts for the parsed components. */
  function RowsFor(userId: string, parsed: seq<Extractor.Record>): (rows: seq<ComponentRow>)
    ensures |rows| == |parsed|
    ensures forall i :: 0 <= i < |parsed| ==>
      rows[i] == ComponentRow(userId, parsed[i].name, parsed[i].code, Lower(parsed[i].name))
  {
    if parsed == [] then []
    else [ComponentRow(userId, parsed[0].name, parsed[0].code, Lower(parsed[0].name))] + RowsFor(userId, parsed[1..])
  }

  /** What saving a generation as a library records: the library's name and its component rows. */
  datatype NewLibrary = NewLibrary(name: string, rows: seq<ComponentRow>)

  /**
   * `createLibraryFromGeneration`: the given name unless it is missing or
   * empty, else one made from the prompt; one row per parsed component.
   */
  function CreateLibrary(userId: string, prompt: string, generatedCode: string, libraryName: Option<string>, date: string): (r: NewLibrary)
    ensures r.rows == RowsFor(userId, Extractor.Parse(generatedCode))
  {
    var name := if libraryName.Some? && libraryName.value != [] then libraryName.value
      else GenerateLibraryName(prompt, date);
    NewLibrary(name, RowsFor(userId, Extractor.Parse(generatedCode)))
  }

  /**
   * A saved generation has one row per component the extractor finds, at
   * least one, in order, each filed under its lower-cased name, and the
   * library is named as given or after the prompt.
   */
  lemma CreateLibraryRows(userId: string, prompt: string, generatedCode: string, libraryName: Option<string>, date: string)
    ensures var r := CreateLibrary(userId, prompt, generatedCode, libraryName, date);
      var parsed := Extractor.Parse(generatedCode);
      && |r.rows| == |parsed| >= 1
      && (forall i :: 0 <= i < |parsed| ==>
            (r.rows[i].name == parsed[i].name && r.rows[i].code == parsed[i].code
             && r.rows[i].category == Lower(parsed[i].name)))
      && r.name == (if libraryName.Some? && libraryName.value != [] then libraryName.value
                    else GenerateLibraryName(prompt, date))
  {
    Extractor.ParseCount(generatedCode);
  }

  /** The row `addComponentToLibrary` inserts: the given category, else the lower-cased name. */
  function AddComponentRow(userId: string, name: string, code: string, category: Option<string>): (r: ComponentRow)
    ensures r.name == name && r.code == code && r.userId == userId
    ensures category.Some? && category.value != [] ==> r.category == category.value
    ensures category.None? || category.value == [] ==> r.category == Lower(name)
  {
    ComponentRow(userId, name, code, if category.Some? && category.value != [] then category.value else Lower(name))
  }

  // ===========================================================================
  // streamLibraryZip
  // ===========================================================================

  /** A component as the export reads it; an empty name stands for a missing one. */
  datatype StoredComponent = StoredComponent(id: string, name: string, code: string)

  /** A library with its linked components; an empty name stands for a missing one. */
  datatype Stored = Stored(name: string, components: seq<StoredComponent>)

  datatype ArchiveEntry = ArchiveEntry(path: string, content: string)

  datatype Header = Header(name: string, value: string)

  /** What the export sends: a 404 with its error, or the archive's headers and entries. */
  datatype Download =
    | NotFound(error: string)
    | Zip(headers: seq<Header>, entries: seq<ArchiveEntry>)

  /** `name || fallback`. */
  function OrElse(name: string, fallback: string): string {
    if name != [] then name else fallback
  }

  /** The components the export takes: those named `componentName` up to case, or all. */
  function Selected(components: seq<StoredComponent>, componentName: string): (r: seq<StoredComponent>)
    ensures |r| <= |components|
  {
    if componentName == [] then components
    else if components == [] then []
    else
      var init := Selected(components[..|components| - 1], componentName);
      var c := components[|components| - 1];
      if Lower(c.name) == Lower(componentName) then init + [c] else init
  }

  function ZipFileName(libraryName: string, libraryId: string, componentName: string, sanitize: string -> string): string {
    var safeLibName := sanitize(OrElse(libraryName, "library-" + libraryId));
    if componentName != [] then safeLibName + "-" + sanitize(componentName) + ".zip"
    else safeLibName + ".zip"
  }

  function Readme(libraryName: string, libraryId: string, count: nat): string {
    "Compkit export: " + OrElse(libraryName, libraryId) + "\n\nContains " + NatToString(count) + " component(s).\n"
  }

  /** The archive entry of one component. */
  function ComponentEntry(c: StoredComponent, sanitize: string -> string): ArchiveEntry {
    ArchiveEntry("components/" + sanitize(OrElse(c.name, c.id)) + ".tsx", c.code)
  }

  function ComponentEntries(cs: seq<StoredComponent>, sanitize: string -> string): (r: seq<ArchiveEntry>)
    ensures |r| == |cs|
    ensures forall i :: 0 <= i < |cs| ==> r[i] == ComponentEntry(cs[i], sanitize)
  {
    if cs == [] then [] else ComponentEntries(cs[..|cs| - 1], sanitize) + [ComponentEntry(cs[|cs| - 1], sanitize)]
  }

  /** What `streamLibraryZip` sends for the library the database returned (`None`: not found or failed). */
  function Export(library: Option<Stored>, libraryId: string, componentName: string, sanitize: string -> string): Download {
    if library.None? then NotFound("Library not found")
    else
      var selected := Selected(library.value.components, componentName);
      if |selected| == 0 then NotFound("Component not found in library")
      else
        var fileName := ZipFileName(library.value.name, libraryId, componentName, sanitize);
        Zip([Header("Content-Type", "application/zip"),
             Header("Content-Disposition", "attachment; filename=\"" + fileName + "\"")],
          [ArchiveEntry("README.md", Readme(library.value.name, libraryId, |selected|))]
            + ComponentEntries(selected, sanitize))
  }

  /** `streamLibraryZip`: selects the components, then appends the README and one file per component. */
  method StreamLibraryZip(library: Option<Stored>, libraryId: string, componentName: string, sanitize: string -> string)
    returns (d: Download)
    ensures d == Export(library, libraryId, componentName, sanitize)
  {
    if library.None? {
      return NotFound("Library not found");
    }
    var selected := Selected(library.value.components, componentName);
    if |selected| == 0 {
      return NotFound("Component not found in library");
    }
    var fileName := ZipFileName(library.value.name, libraryId, componentName, sanitize);
    var headers := [Header("Content-Type", "application/zip")];
    headers := headers + [Header("Content-Disposition", "attachment; filename=\"" + fileName + "\"")];
    var entries := [ArchiveEntry("README.md", Readme(library.value.name, libraryId, |selected|))];
    for i := 0 to |selected|
      invariant entries == [ArchiveEntry("README.md", Readme(library.value.name, libraryId, |selected|))]
        + ComponentEntries(selected[..i], sanitize)
    {
      assert selected[..i + 1][..i] == selected[..i];
      entries := entries + [ComponentEntry(selected[i], sanitize)];
    }
    assert selected[..|selected|] == selected;
    d := Zip(headers, entries);
  }

  /**
   * A named export keeps exactly the components whose names match it up to
   * case; an unnamed one keeps them all.
   */
  lemma {:induction false} SelectedMembers(components: seq<StoredComponent>, componentName: string, c: StoredComponent)
    ensures c in Selected(components, componentName)
      <==> c in components && (componentName == [] || Lower(c.name) == Lower(componentName))
  {
    if componentName != [] && components != [] {
      var init := components[..|components| - 1];
      SelectedMembers(init, componentName, c);
      assert components == init + [components[|components| - 1]];
    }
  }

  /**
   * Selection is a filter that keeps library order: selecting from two runs
   * of components one after the other selects from each in turn.
   */
  lemma {:induction false} SelectedAppend(a: seq<StoredComponent>, b: seq<StoredComponent>, componentName: string)
    ensures Selected(a + b, componentName) == Selected(a, componentName) + Selected(b, componentName)
  {
    if componentName != [] {
      if b == [] {
        assert a + b == a;
      } else {
        var init := b[..|b| - 1];
        SelectedAppend(a, init, componentName);
        assert (a + b)[..|a + b| - 1] == a + init;
        assert (a + b)[|a + b| - 1] == b[|b| - 1];
      }
    }
  }

  /** An export is a 404 exactly when the library is missing or no component is selected. */
  lemma ExportNotFound(library: Option<Stored>, libraryId: string, componentName: string, sanitize: string -> string)
    ensures Export(library, libraryId, componentName, sanitize).NotFound?
      <==> library.None? || Selected(library.value.components, componentName) == []
  {
  }

  /** The entries of a successful export: the README, then one file per selected component. */
  lemma ExportEntries(library: Option<Stored>, libraryId: string, componentName: string, sanitize: string -> string)
    requires Export(library, libraryId, componentName, sanitize).Zip?
    ensures var selected := Selected(library.value.components, componentName);
      Export(library, libraryId, componentName, sanitize).entries
        == [ArchiveEntry("README.md", Readme(library.value.name, libraryId, |selected|))]
           + ComponentEntries(selected, sanitize)
  {
  }

  /**
   * A successful export holds the README first, stating how many components
   * it holds, then exactly one `components/<name>.tsx` per selected
   * component, in order, with its code.
   */
  lemma ExportArchive(library: Option<Stored>, libraryId: string, componentName: string, sanitize: string -> string)
    requires Export(library, libraryId, componentName, sanitize).Zip?
    ensures var entries := Export(library, libraryId, componentName, sanitize).entries;
      var selected := Selected(library.value.components, componentName);
      && |entries| == |selected| + 1
      && entries[0] == ArchiveEntry("README.md", Readme(library.value.name, libraryId, |selected|))
      && forall i :: 0 <= i < |selected| ==>
           entries[i + 1].path == "components/" + sanitize(OrElse(selected[i].name, selected[i].id)) + ".tsx"
           && entries[i + 1].content == selected[i].code
  {
    var selected := Selected(library.value.components, componentName);
    var readme := ArchiveEntry("README.md", Readme(library.value.name, libraryId, |selected|));
    var rest := ComponentEntries(selected, sanitize);
    ExportEntries(library, libraryId, componentName, sanitize);
    assert forall i :: 0 <= i < |selected| ==> ([readme] + rest)[i + 1] == rest[i];
  }

  /**
   * Every archive name ends in `.zip`, and naming a component inserts
   * `-<sanitized component>` just before that extension of the library's own
   * archive name.
   */
  lemma ZipFileNameSuffix(libraryName: string, libraryId: string, componentName: string, sanitize: string -> string)
    ensures var r := ZipFileName(libraryName, libraryId, componentName, sanitize);
      |r| >= 4 && r[|r| - 4..] == ".zip"
    ensures var whole := ZipFileName(libraryName, libraryId, [], sanitize);
      componentName != [] ==>
        ZipFileName(libraryName, libraryId, componentName, sanitize)
          == whole[..|whole| - 4] + "-" + sanitize(componentName) + ".zip"
  {
    var safe := sanitize(OrElse(libraryName, "library-" + libraryId));
    var whole := safe + ".zip";
    assert whole[..|whole| - 4] == safe;
    var r := ZipFileName(libraryName, libraryId, componentName, sanitize);
    assert r[|r| - 4..] == ".zip";
  }
}
