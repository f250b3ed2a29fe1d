/** Shared value types of the tree editor: an optional value (the source's
    `null`/absent), a geographic reference point and the preview size. */
module Types {

  /** A value that may be absent (`null` or an omitted option in the source). */
  datatype Option<+T> = None | Some(value: T)

  /** A latitude/longitude pair in degrees. */
  datatype ReferencePoint = ReferencePoint(latitude: real, longitude: real)

  /** The size of the preview area in pixels. */
  datatype PreviewSize = PreviewSize(width: real, height: real)
}
