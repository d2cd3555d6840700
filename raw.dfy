/** The parsed JSON the admin tool and the archive page read, restricted to the
    shapes their code distinguishes. A field is `None` when it is `null` or
    absent (`x ?? ''` then falls back); `Some("")` is the empty string, which is
    present but falsy. */
module Raw {

  import opened Wrappers

  /** `item.tags`: an array, a string, or anything else. */
  datatype RawTags = TagArray(elems: seq<string>) | TagString(text: string) | TagOther

  /** One entry of a worksheet's `files` array; `null` reads as both fields absent.
      `caption` is the JSON field `label` (a reserved word in Dafny). */
  datatype RawFile = RawFile(caption: Option<string>, url: Option<string>)

  /** A comic's `dictionary` when it is a non-null object (an array reads as an
      object with every field absent). */
  datatype RawDict = RawDict(
    term: Option<string>,
    phonetic: Option<string>,
    pos: Option<string>,
    definitions: Option<seq<string>>)

  /** One element of the loaded array, when it is not `null`. A number, a string
      or a boolean reads as an object with every field absent. */
  datatype RawItem = RawItem(
    id: Option<string>,
    title: Option<string>,
    image: Option<string>,
    thumbnail: Option<string>,
    alt: Option<string>,
    description: Option<string>,
    instructions: Option<string>,
    tags: RawTags,
    images: Option<seq<string>>,
    files: Option<seq<RawFile>>,
    ingredients: Option<seq<string>>,
    dictionary: Option<RawDict>)

  /** An element of a loaded or restored array: `null`, or an object. */
  datatype RawElement = NullElement | ObjectElement(item: RawItem)

  /** `{}`: every field absent. */
  const EmptyItem := RawItem(None, None, None, None, None, None, None, TagOther, None, None, None, None)
}
