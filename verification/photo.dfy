/** The item descriptor of the slideshow: one photo file and its caption fields. */
module Photos {

  /** A photo as the archive stores it. Loading and drawing the image are not modelled,
      so a photo is only the record of its URI and caption fields. */
  datatype Photo = Photo(imageUri: string, title: string, desc: string, date: string, startOfPage: bool)

  /** A photo freshly made from a file name: no caption has been found for it yet. */
  function NewPhoto(uri: string): (p: Photo)
    ensures p.imageUri == uri
    ensures p.title == "" && p.desc == "" && p.date == "" && !p.startOfPage
  {
    Photo(uri, "", "", "", false)
  }

  /** The photos made from a sorted list of file names, one per name, in the same order. */
  function PhotosOf(names: seq<string>): (r: seq<Photo>)
    ensures |r| == |names|
    ensures forall i :: 0 <= i < |names| ==> r[i] == NewPhoto(names[i])
  {
    if names == [] then []
    else PhotosOf(names[..|names| - 1]) + [NewPhoto(names[|names| - 1])]
  }
}
