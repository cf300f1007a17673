/**
 * A place of the travel catalogue: an identity, a title, an image and a
 * coordinate. Places are values; nothing in the application changes one
 * after it has been loaded.
 */
module Places {

  /** The picture shown for a place: its source and its alternative text. */
  datatype Image = Image(src: string, alt: string)

  /**
   * A catalogue entry. Only `id` takes part in any computation of the
   * selection list; title, image and coordinate are carried along unchanged.
   */
  datatype Place = Place(id: string, title: string, image: Image, lat: real, lon: real)
}
