/** The schema registry of the admin tool (`DATASETS`): the three record kinds,
    the canonical record shapes, per-kind normalisation of raw JSON, the shared
    tag normalisation, and the asset paths a record refers to. */
module Schema {

  import opened Wrappers
  import opened Seqs
  import opened Strings
  import opened Raw

  /** The three datasets; the store holds records of one kind at a time. */
  datatype Kind = Worksheets | Recipes | Comics

  /** The dataset's key in `DATASETS`, as the select box and the manifest print it. */
  function DatasetName(k: Kind): string {
    match k
    case Worksheets => "worksheets"
    case Recipes => "recipes"
    case Comics => "comics"
  }

  /** The file name the dataset is exported under. */
  function Filename(k: Kind): string {
    DatasetName(k) + ".json"
  }

  /** One downloadable file of a worksheet; `caption` is the JSON field `label`. */
  datatype FileLink = FileLink(caption: string, url: string)

  /** A comic's dictionary entry. */
  datatype Dictionary = Dictionary(term: string, phonetic: string, pos: string, definitions: seq<string>)

  /** A record as the store holds it. Normalisation produces the canonical form;
      the editor then writes raw input values into it. */
  datatype Record =
    | Worksheet(id: string, title: string, image: string, images: seq<string>,
                description: string, tags: seq<string>, files: seq<FileLink>)
    | Recipe(id: string, title: string, image: string, alt: string, description: string,
             tags: seq<string>, ingredients: seq<string>, instructions: string)
    | Comic(id: string, title: string, image: string, alt: string, description: string,
            tags: seq<string>, dictionary: Option<Dictionary>)

  function KindOf(r: Record): Kind {
    match r
    case Worksheet(_, _, _, _, _, _, _) => Worksheets
    case Recipe(_, _, _, _, _, _, _, _) => Recipes
    case Comic(_, _, _, _, _, _, _) => Comics
  }

  /** `String(x ?? '')` on an optional string; also `x ? String(x) : ''`, since
      the only falsy string is the empty one. */
  function OrEmpty(x: Option<string>): string {
    match x
    case Some(s) => s
    case None => ""
  }

  /** `normalizeTags`: every tag is trimmed and non-empty, in input order; a
      string is split at commas; anything else gives no tags. */
  function NormalizeTags(t: RawTags): (r: seq<string>)
    ensures AllClean(r)
    ensures t.TagArray? ==> IsSubsequence(r, TrimEach(t.elems))
    ensures t.TagArray? ==> forall x :: multiset(r)[x] == if x == "" then 0 else multiset(TrimEach(t.elems))[x]
    ensures t.TagString? ==> forall i :: 0 <= i < |r| ==> ',' !in r[i]
    ensures t.TagString? && Trim(t.text) != "" ==>
      var pieces := TrimEach(Split(Trim(t.text), ','));
      && IsSubsequence(r, pieces)
      && forall x :: multiset(r)[x] == if x == "" then 0 else multiset(pieces)[x]
    ensures t.TagString? && Trim(t.text) == "" ==> r == []
    ensures t.TagOther? ==> r == []
  {
    match t
    case TagArray(xs) => CleanList(xs)
    case TagString(s) =>
      var s' := Trim(s);
      if s' == [] then []
      else
        CleanListAvoids(Split(s', ','), ',');
        CleanList(Split(s', ','))
    case TagOther => []
  }

  /** Clean tags pass through the array branch unchanged. */
  lemma NormalizeTagsKeepsClean(tags: seq<string>)
    requires AllClean(tags)
    ensures NormalizeTags(TagArray(tags)) == tags
  {
    CleanListKeepsClean(tags);
  }

  /** Normalising normalised tags changes nothing, whatever the raw value was. */
  lemma NormalizeTagsIdempotent(t: RawTags)
    ensures NormalizeTags(TagArray(NormalizeTags(t))) == NormalizeTags(t)
  {
    NormalizeTagsKeepsClean(NormalizeTags(t));
  }

  /** The editor's tag field round trip: clean tags without commas, shown
      joined by `', '` and read back from the field, are the same tags. */
  lemma TagsFieldRoundTrip(tags: seq<string>)
    requires AllClean(tags)
    requires forall i :: 0 <= i < |tags| ==> ',' !in tags[i]
    ensures NormalizeTags(TagString(Join(tags, ", "))) == tags
  {
    if tags != [] {
      var s := Join(tags, ", ");
      JoinTrimmed(tags, ", ");
      var ps := Spaced(tags);
      JoinSpaced(tags);
      SpacedPieces(tags);
      SplitJoin(ps, ',');
      CleanListAllKept(ps);
    }
  }

  /** Each piece of the comma split of the joined field has no comma and
      trims to its tag. */
  lemma SpacedPieces(tags: seq<string>)
    requires AllClean(tags)
    requires forall i :: 0 <= i < |tags| ==> ',' !in tags[i]
    ensures forall i :: 0 <= i < |tags| ==> ',' !in Spaced(tags)[i] && Trim(Spaced(tags)[i]) == tags[i]
    ensures TrimEach(Spaced(tags)) == tags
  {
    var ps := Spaced(tags);
    forall i | 0 <= i < |ps| ensures ',' !in ps[i] && Trim(ps[i]) == tags[i] {
      if i > 0 {
        assert ps[i] == [' '] + tags[i];
        TrimLeadingSpace(tags[i]);
      }
    }
  }

  /** One entry of `files`, mapped as `{label, url}` with `''` for a missing or
      empty field. */
  function NormalizeFile(f: RawFile): FileLink {
    FileLink(OrEmpty(f.caption), OrEmpty(f.url))
  }

  function NormalizeFiles(fs: seq<RawFile>): (r: seq<FileLink>)
    ensures |r| == |fs|
    ensures forall i :: 0 <= i < |fs| ==> r[i] == NormalizeFile(fs[i])
  {
    seq(|fs|, i requires 0 <= i < |fs| => NormalizeFile(fs[i]))
  }

  /** The comic dictionary object as `normalize` rebuilds it: the three text
      fields trimmed, the definitions trimmed with the empty ones dropped. */
  function NormalizeDictionary(d: RawDict): (r: Dictionary)
    ensures CanonicalDictionary(r)
  {
    var defs := CleanOptional(d.definitions);
    Dictionary(Text(d.term), Text(d.phonetic), Text(d.pos), defs)
  }

  /** A list field read as `(x || []).map(trim).filter(Boolean)`. */
  function CleanOptional(xs: Option<seq<string>>): (r: seq<string>)
    ensures AllClean(r)
    ensures xs.Some? ==> IsSubsequence(r, TrimEach(xs.value))
    ensures xs.Some? ==> forall x :: multiset(r)[x] == if x == "" then 0 else multiset(TrimEach(xs.value))[x]
    ensures xs.None? ==> r == []
  {
    match xs
    case Some(ys) => CleanList(ys)
    case None => []
  }

  predicate CanonicalDictionary(d: Dictionary) {
    IsTrimmed(d.term) && IsTrimmed(d.phonetic) && IsTrimmed(d.pos) && AllClean(d.definitions)
  }

  /** The shape `normalize` produces: every text field trimmed, tags clean,
      worksheet gallery entries non-empty, comic dictionary (if any) clean.
      Worksheet file fields and recipe ingredients are kept as given. */
  predicate Canonical(r: Record) {
    && IsTrimmed(r.id) && IsTrimmed(r.title) && IsTrimmed(r.image)
    && IsTrimmed(r.description) && AllClean(r.tags)
    && (r.Worksheet? ==> forall i :: 0 <= i < |r.images| ==> r.images[i] != "")
    && (r.Recipe? ==> IsTrimmed(r.alt) && IsTrimmed(r.instructions))
    && (r.Comic? ==> IsTrimmed(r.alt) && (r.dictionary.Some? ==> CanonicalDictionary(r.dictionary.value)))
  }

  /** `String(x ?? '').trim()`. */
  function Text(x: Option<string>): (r: string)
    ensures IsTrimmed(r)
    ensures x.Some? && IsTrimmed(x.value) ==> r == x.value
  {
    match x
    case Some(s) => Trim(s)
    case None => ""
  }

  function NormalizeWorksheet(raw: RawItem): (r: Record)
    ensures r.Worksheet? && Canonical(r)
  {
    Worksheet(
      Text(raw.id), Text(raw.title),
      Text(if raw.image.Some? then raw.image else raw.thumbnail),
      match raw.images case Some(xs) => DropEmpty(xs) case None => [],
      Text(raw.description), NormalizeTags(raw.tags),
      match raw.files case Some(fs) => NormalizeFiles(fs) case None => [])
  }

  function NormalizeRecipe(raw: RawItem): (r: Record)
    ensures r.Recipe? && Canonical(r)
  {
    Recipe(
      Text(raw.id), Text(raw.title), Text(raw.image), Text(raw.alt), Text(raw.description),
      NormalizeTags(raw.tags),
      match raw.ingredients case Some(xs) => xs case None => [],
      Text(raw.instructions))
  }

  function NormalizeComic(raw: RawItem): (r: Record)
    ensures r.Comic? && Canonical(r)
  {
    Comic(
      Text(raw.id), Text(raw.title), Text(raw.image), Text(raw.alt), Text(raw.description),
      NormalizeTags(raw.tags),
      match raw.dictionary case Some(d) => Some(NormalizeDictionary(d)) case None => None)
  }

  /** `DATASETS[k].normalize(item)`: a record of kind `k` in canonical shape.
      A worksheet's `image` falls back to `thumbnail` only when `image` is null
      or absent; an all-empty comic dictionary object is kept. */
  function Normalize(k: Kind, raw: RawItem): (r: Record)
    ensures KindOf(r) == k
    ensures Canonical(r)
  {
    match k
    case Worksheets => NormalizeWorksheet(raw)
    case Recipes => NormalizeRecipe(raw)
    case Comics => NormalizeComic(raw)
  }

  function FileToRaw(f: FileLink): RawFile {
    RawFile(Some(f.caption), Some(f.url))
  }

  /** A record as JSON: what `JSON.stringify` writes and `normalize` reads back
      (export re-normalises the store's records, restore normalises the saved ones). */
  function ToRaw(r: Record): RawItem {
    match r
    case Worksheet(id, title, image, images, description, tags, files) =>
      RawItem(Some(id), Some(title), Some(image), None, None, Some(description), None,
              TagArray(tags), Some(images), Some(seq(|files|, i requires 0 <= i < |files| => FileToRaw(files[i]))),
              None, None)
    case Recipe(id, title, image, alt, description, tags, ingredients, instructions) =>
      RawItem(Some(id), Some(title), Some(image), None, Some(alt), Some(description), Some(instructions),
              TagArray(tags), None, None, Some(ingredients), None)
    case Comic(id, title, image, alt, description, tags, dictionary) =>
      RawItem(Some(id), Some(title), Some(image), None, Some(alt), Some(description), None,
              TagArray(tags), None, None, None,
              match dictionary
              case Some(d) => Some(RawDict(Some(d.term), Some(d.phonetic), Some(d.pos), Some(d.definitions)))
              case None => None)
  }

  lemma WorksheetFixed(r: Record)
    requires r.Worksheet? && Canonical(r)
    ensures NormalizeWorksheet(ToRaw(r)) == r
  {
    var raw := ToRaw(r);
    var n := NormalizeWorksheet(raw);
    CleanListKeepsClean(r.tags);
    assert n.id == r.id && n.title == r.title && n.image == r.image && n.description == r.description;
    assert n.tags == r.tags;
    assert n.images == r.images;
    assert n.files == r.files;
  }

  lemma RecipeFixed(r: Record)
    requires r.Recipe? && Canonical(r)
    ensures NormalizeRecipe(ToRaw(r)) == r
  {
    var n := NormalizeRecipe(ToRaw(r));
    CleanListKeepsClean(r.tags);
    assert n.id == r.id && n.title == r.title && n.image == r.image && n.description == r.description;
    assert n.alt == r.alt && n.instructions == r.instructions;
    assert n.tags == r.tags;
    assert n.ingredients == r.ingredients;
  }

  lemma ComicFixed(r: Record)
    requires r.Comic? && Canonical(r)
    ensures NormalizeComic(ToRaw(r)) == r
  {
    var raw := ToRaw(r);
    var n := NormalizeComic(raw);
    CleanListKeepsClean(r.tags);
    assert n.id == r.id && n.title == r.title && n.image == r.image && n.description == r.description;
    assert n.alt == r.alt;
    assert n.tags == r.tags;
    if r.dictionary.Some? {
      var d := r.dictionary.value;
      var e := NormalizeDictionary(raw.dictionary.value);
      assert e.term == d.term && e.phonetic == d.phonetic && e.pos == d.pos;
      CleanListKeepsClean(d.definitions);
      assert e.definitions == d.definitions;
    }
    assert n.dictionary == r.dictionary;
  }

  /** A record is a fixed point of normalisation exactly when it is canonical. */
  lemma CanonicalIffFixedPoint(r: Record)
    ensures Normalize(KindOf(r), ToRaw(r)) == r <==> Canonical(r)
  {
    var n := Normalize(KindOf(r), ToRaw(r));
    if Canonical(r) {
      match r
      case Worksheet(_, _, _, _, _, _, _) => WorksheetFixed(r);
      case Recipe(_, _, _, _, _, _, _, _) => RecipeFixed(r);
      case Comic(_, _, _, _, _, _, _) => ComicFixed(r);
    }
  }

  /** `normalize` is idempotent: re-normalising its output, as export does,
      changes nothing. */
  lemma NormalizeIdempotent(k: Kind, raw: RawItem)
    ensures Normalize(k, ToRaw(Normalize(k, raw))) == Normalize(k, raw)
  {
    CanonicalIffFixedPoint(Normalize(k, raw));
  }

  /** A dictionary object whose fields are all missing survives normalisation
      as an all-empty dictionary; only the editor collapses it to null. */
  lemma ComicKeepsEmptyDictionary(raw: RawItem)
    requires raw.dictionary == Some(RawDict(None, None, None, None))
    ensures Normalize(Comics, raw).dictionary == Some(Dictionary("", "", "", []))
  {
    assert Trim("") == "";
  }

  /** The URLs of a worksheet's files, in order. */
  function FileUrls(files: seq<FileLink>): (r: seq<string>)
    ensures |r| == |files|
    ensures forall i :: 0 <= i < |files| ==> r[i] == files[i].url
  {
    seq(|files|, i requires 0 <= i < |files| => files[i].url)
  }

  /** `manifestPaths`: the non-empty asset paths of a record, duplicates kept in
      order; a worksheet contributes its thumbnail, gallery and file URLs, a
      recipe or comic only its image. */
  function ManifestPaths(r: Record): (ps: seq<string>)
    ensures forall i :: 0 <= i < |ps| ==> ps[i] != ""
    ensures var all := [r.image] + (if r.Worksheet? then r.images + FileUrls(r.files) else []);
      && IsSubsequence(ps, all)
      && forall x :: multiset(ps)[x] == if x == "" then 0 else multiset(all)[x]
    ensures forall x :: x in ps <==>
      x != "" && (x == r.image || (r.Worksheet? && (x in r.images || x in FileUrls(r.files))))
  {
    DropEmpty([r.image] + (if r.Worksheet? then r.images + FileUrls(r.files) else []))
  }
}
