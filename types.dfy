/** The records of lib/types.ts, as datatypes. HexagonData is the record
    lib/hooks/useCanvas.ts actually pushes ({x, y, size, dataIndex, hasData}),
    not the interface declared in lib/types.ts. */
module Types {

  /** One contribution: a stable id and its amount. */
  datatype Aporte = Aporte(id: string, value: real)

  /** One entry of the grid index kept between renders. */
  datatype HexagonData = HexagonData(x: real, y: real, size: real, dataIndex: nat, hasData: bool)

  /** Viewport size in CSS pixels. */
  datatype Dimensions = Dimensions(width: real, height: real)

  /** A CSS colour `hsl(h, s%, l%)`; also the shape of a gradient stop
      (ColorStop in lib/types.ts). Formatting the triple as text is
      one-to-one, so colours are compared as triples. */
  datatype Color = Hsl(h: int, s: int, l: int)

  /** A lookup that may find nothing (JavaScript's `undefined`). */
  datatype Option<T> = None | Some(value: T)
}
