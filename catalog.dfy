/**
 * The catalog item record shared by the server (a JSON dict in the public
 * database) and the client (an object of `publicItems` / `items`), and the
 * item key that joins the catalog with a user's ownership overlay.
 *
 * Absent string fields are the empty string (the `.get(..., '')` reads, the
 * truthiness tests and the JavaScript reads treat "" and a missing field alike);
 * absent and null coordinates are None.
 */
module Catalog {
  import opened Common
  import opened Strings

  /** The bucket the region rules fall back to. */
  const Other := "其他"

  datatype Item = Item(
    id: int,
    name: string,
    image: string,
    emoji: string,
    category: string,
    region: string,
    lat: Option<real>,
    lng: Option<real>,
    searchLocation: string,
    owned: bool)

  /** ui.js: `item.image ? item.image.split('/').pop() : item.name` -- the image's
      file name (the part after its last '/'), or the name when there is no image. */
  function ClientKey(item: Item): (k: string)
    ensures item.image == "" ==> k == item.name
    ensures item.image != "" ==>
      && '/' !in k && |k| <= |item.image|
      && k == item.image[|item.image| - |k|..]
      && (|k| < |item.image| ==> item.image[|item.image| - |k| - 1] == '/')
  {
    if item.image != "" then LastSegment(item.image) else item.name
  }

  /** routes.py: `i.get('image', '').split('/')[-1] or i.get('name')` -- the image's
      file name, or the name when that file name is empty. */
  function ServerKey(image: string, name: string): (k: string)
    ensures k == name || ('/' !in k && k != "" && |k| <= |image| && k == image[|image| - |k|..])
    ensures k == name <== (image == "" || image[|image| - 1] == '/')
    ensures LastSegment(image) != "" ==> k == LastSegment(image)
    ensures LastSegment(image) == "" ==> k == name
  {
    LastSegmentEmpty(image);
    var seg := LastSegment(image);
    if seg != "" then seg else name
  }

  /**
   * The client and the server derive the same key for an item except when its
   * image is non-empty and ends in '/': the client then uses the empty last
   * segment, the server falls back to the name.
   */
  lemma KeysAgree(item: Item)
    ensures ClientKey(item) == ServerKey(item.image, item.name)
        <==> !(item.image != "" && LastSegment(item.image) == "") || item.name == ""
  {
    LastSegmentEmpty(item.image);
  }

  /** The key is stable across a rename: two items with the same non-empty image
      filename share a key whatever their names. */
  lemma KeyIgnoresNameWhenImageSet(a: Item, b: Item)
    requires a.image != "" && b.image != ""
    requires LastSegment(a.image) == LastSegment(b.image)
    ensures ClientKey(a) == ClientKey(b)
  {
  }
}
