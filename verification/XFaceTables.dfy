// The "guess the next pixel" tables: one bit per context, most significant bit first.
// The tables for column 48 are left out: the predictor only visits columns 0 to 47.
module XFaceTables {
  import opened Common

  const G00: seq<Byte> := [
    0x00, 0x00, 0x01, 0x01, 0x00, 0x00, 0xe3, 0xdf, 0x05, 0x17, 0x05, 0x0f, 0x00, 0x1b, 0x0f, 0xdf
  ] + [
    0x00, 0x04, 0x00, 0x00, 0x0d, 0x0f, 0x03, 0x7f, 0x00, 0x00, 0x00, 0x01, 0x00, 0x1d, 0x45, 0x2f,
    0x00, 0x00, 0x00, 0x0d, 0x00, 0x0a, 0xff, 0xff, 0x00, 0x04, 0x00, 0x05, 0x01, 0x3f, 0xcf, 0xff,
    0x10, 0x01, 0x80, 0xc9, 0x0f, 0x0f, 0xff, 0xff, 0x00, 0x00, 0x00, 0x00, 0x1b, 0x1f, 0xff, 0xff,
    0x4f, 0x54, 0x07, 0x1f, 0x57, 0x47, 0xd7, 0x3d, 0xff, 0xff, 0x5f, 0x1f, 0x7f, 0xff, 0x7f, 0x7f,
    0x05, 0x0f, 0x01, 0x0f, 0x0f, 0x5f, 0x9b, 0xdf, 0x7f, 0xff, 0x5f, 0x1d, 0x5f, 0xff, 0x0f, 0x1f,
    0x0f, 0x5f, 0x03, 0x1f, 0x4f, 0x5f, 0xf7, 0x7f, 0x7f, 0xff, 0x0d, 0x0f, 0xfb, 0xff, 0xf7, 0xbf,
    0x0f, 0x4f, 0xd7, 0x3f, 0x4f, 0x7f, 0xff, 0xff, 0x67, 0xbf, 0x56, 0x25, 0x1f, 0x7f, 0x9f, 0xff,
    0x00, 0x00, 0x00, 0x05, 0x5f, 0x7f, 0x01, 0xdf, 0x14, 0x00, 0x05, 0x0f, 0x07, 0xa2, 0x09, 0x0f,
    0x00, 0x00, 0x00, 0x00, 0x0f, 0x5f, 0x18, 0xd7, 0x94, 0x71, 0x00, 0x05, 0x1f, 0xb7, 0x0c, 0x07,
    0x0f, 0x0f, 0x00, 0x0f, 0x0f, 0x1f, 0x84, 0x8f, 0x05, 0x15, 0x05, 0x0f, 0x4f, 0xff, 0x87, 0xdf,
    0x05, 0x01, 0x10, 0x00, 0x0f, 0x0f, 0x00, 0x08, 0x05, 0x04, 0x04, 0x01, 0x4f, 0xff, 0x9f, 0x8f,
    0x4a, 0x40, 0x5f, 0x5f, 0xff, 0xfe, 0xdf, 0xff, 0x7f, 0xf7, 0xff, 0x7f, 0xff, 0xff, 0x7b, 0xff,
    0x0f, 0xfd, 0xd7, 0x5f, 0x4f, 0x7f, 0x7f, 0xdf, 0xff, 0xff, 0xff, 0xff, 0xff, 0x77, 0xdf, 0x7f,
    0x4f, 0xef, 0xff, 0xff, 0x77, 0xff, 0xff, 0xff, 0x6f, 0xff, 0x0f, 0x4f, 0xff, 0xff, 0x9d, 0xff,
    0x0f, 0xef, 0xff, 0xdf, 0x6f, 0xff, 0xff, 0xff, 0x4f, 0xff, 0xcd, 0x0f, 0x4f, 0xff, 0xff, 0xdf,
    0x00, 0x00, 0x00, 0x0b, 0x05, 0x02, 0x02, 0x0f, 0x04, 0x00, 0x00, 0x0c, 0x01, 0x06, 0x00, 0x0f,
    0x20, 0x03, 0x00, 0x00, 0x05, 0x0f, 0x40, 0x08, 0x00, 0x00, 0x00, 0x01, 0x00, 0x01, 0x0c, 0x0f,
    0x01, 0x00, 0x80, 0x00, 0x00, 0x00, 0x80, 0x00, 0x00, 0x14, 0x01, 0x05, 0x01, 0x15, 0xaf, 0x0f,
    0x00, 0x01, 0x10, 0x00, 0x08, 0x00, 0x46, 0x0c, 0x20, 0x00, 0x88, 0x00, 0x0f, 0x15, 0xff, 0xdf,
    0x02, 0x00, 0x00, 0x0f, 0x7f, 0x5f, 0xdb, 0xff, 0x4f, 0x3e, 0x05, 0x0f, 0x7f, 0xf7, 0x95, 0x4f,
    0x0d, 0x0f, 0x01, 0x0f, 0x4f, 0x5f, 0x9f, 0xdf, 0x25, 0x0e, 0x0d, 0x0d, 0x4f, 0x7f, 0x8f, 0x0f,
    0x0f, 0xfa, 0x04, 0x4f, 0x4f, 0xff, 0xf7, 0x77, 0x47, 0xed, 0x05, 0x0f, 0xff, 0xff, 0xdf, 0xff,
    0x4f, 0x6f, 0xd8, 0x5f, 0x0f, 0x7f, 0xdf, 0x5f, 0x07, 0x0f, 0x94, 0x0d, 0x1f, 0xff, 0xff, 0xff,
    0x00, 0x02, 0x00, 0x03, 0x46, 0x57, 0x01, 0x0d, 0x01, 0x08, 0x01, 0x0f, 0x47, 0x6c, 0x0d, 0x0f,
    0x02, 0x00, 0x00, 0x00, 0x0b, 0x4f, 0x00, 0x08, 0x05, 0x00, 0x95, 0x01, 0x0f, 0x7f, 0x0c, 0x0f,
    0x01, 0x0e, 0x00, 0x00, 0x0f, 0x41, 0x00, 0x00, 0x04, 0x24, 0x0d, 0x0f, 0x0f, 0x7f, 0xcf, 0xdf,
    0x00, 0x00, 0x00, 0x00, 0x04, 0x40, 0x00, 0x00, 0x06, 0x26, 0xcf, 0x05, 0xcf, 0x7f, 0xdf, 0xdf,
    0x00, 0x00, 0x17, 0x5f, 0xff, 0xfd, 0xff, 0xff, 0x46, 0x09, 0x4f, 0x5f, 0x7f, 0xfd, 0xdf, 0xff,
    0x0a, 0x88, 0xa7, 0x7f, 0x7f, 0xff, 0xff, 0xff, 0x0f, 0x04, 0xdf, 0x7f, 0x4f, 0xff, 0x9f, 0xff,
    0x0e, 0xe6, 0xdf, 0xff, 0x7f, 0xff, 0xff, 0xff, 0x0f, 0xec, 0x8f, 0x4f, 0x7f, 0xff, 0xdf, 0xff,
    0x0f, 0xcf, 0xdf, 0xff, 0x6f, 0x7f, 0xff, 0xff, 0x03, 0x0c, 0x9d, 0x0f, 0x7f, 0xff, 0xff, 0xff
  ]

  const G01: seq<Byte> := [0x37, 0x73, 0x00, 0x19, 0x57, 0x7f, 0xf5, 0xfb, 0x70, 0x33, 0xf0, 0xf9, 0x7f, 0xff, 0xff, 0xff]

  const G02: seq<Byte> := [0x50]

  const G10: seq<Byte> := [
    0x00, 0x00, 0x00, 0x00, 0x50, 0x00, 0xf3, 0x5f, 0x84, 0x04, 0x17, 0x9f, 0x04, 0x23, 0x05, 0xff
  ] + [
    0x00, 0x00, 0x00, 0x02, 0x03, 0x03, 0x33, 0xd7, 0x05, 0x03, 0x5f, 0x3f, 0x17, 0x33, 0xff, 0xff,
    0x00, 0x80, 0x02, 0x04, 0x12, 0x00, 0x11, 0x57, 0x05, 0x25, 0x05, 0x03, 0x35, 0xbf, 0x9f, 0xff,
    0x07, 0x6f, 0x20, 0x40, 0x17, 0x06, 0xfa, 0xe8, 0x01, 0x07, 0x1f, 0x9f, 0x1f, 0xff, 0xff, 0xff
  ]

  const G20: seq<Byte> := [0x04, 0x00, 0x01, 0x01, 0x43, 0x2e, 0xff, 0x3f]

  const G40: seq<Byte> := [
    0x00, 0x0f, 0x00, 0x09, 0x00, 0x0d, 0x00, 0x0d, 0x00, 0x0f, 0x00, 0x4e, 0xe4, 0x0d, 0x10, 0x0f
  ] + [
    0x00, 0x0f, 0x44, 0x4f, 0x00, 0x1e, 0x0f, 0x0f, 0xae, 0xaf, 0x45, 0x7f, 0xef, 0xff, 0x0f, 0xff,
    0x00, 0x09, 0x01, 0x11, 0x00, 0x01, 0x1c, 0xdd, 0x00, 0x15, 0x00, 0xff, 0x00, 0x10, 0x00, 0xfd,
    0x00, 0x0f, 0x4f, 0x5f, 0x3d, 0xff, 0xff, 0xff, 0x4f, 0xff, 0x1c, 0xff, 0xdf, 0xff, 0x8f, 0xff,
    0x00, 0x0d, 0x00, 0x00, 0x00, 0x15, 0x01, 0x07, 0x00, 0x01, 0x02, 0x1f, 0x01, 0x11, 0x05, 0x7f,
    0x00, 0x1f, 0x41, 0x57, 0x1f, 0xff, 0x05, 0x77, 0x0d, 0x5f, 0x4d, 0xff, 0x4f, 0xff, 0x0f, 0xff,
    0x00, 0x00, 0x02, 0x05, 0x00, 0x11, 0x05, 0x7d, 0x10, 0x15, 0x2f, 0xff, 0x40, 0x50, 0x0d, 0xfd,
    0x04, 0x0f, 0x07, 0x1f, 0x07, 0x7f, 0x0f, 0xbf, 0x0d, 0x7f, 0x0f, 0xff, 0x4d, 0x7d, 0x0f, 0xff
  ]

  const G11: seq<Byte> := [0x01, 0x13, 0x03, 0x7f]

  const G21: seq<Byte> := [0x17]

  const G41: seq<Byte> := [0x01, 0x01, 0x01, 0x1f, 0x03, 0x1f, 0x3f, 0xff]

  const G12: seq<Byte> := [0x40]

  const G22: seq<Byte> := [0x00]

  const G42: seq<Byte> := [0x10]

  // The tables by their position: the first digit counts columns, the second rows.
  datatype TableSet = TableSet(
    g00: seq<Byte>, g01: seq<Byte>, g02: seq<Byte>,
    g10: seq<Byte>, g11: seq<Byte>, g12: seq<Byte>,
    g20: seq<Byte>, g21: seq<Byte>, g22: seq<Byte>,
    g40: seq<Byte>, g41: seq<Byte>, g42: seq<Byte>)
  {
    predicate Sized() {
      && |g00| == 512 && |g01| == 16 && |g02| == 1
      && |g10| == 64 && |g11| == 4 && |g12| == 1
      && |g20| == 8 && |g21| == 1 && |g22| == 1
      && |g40| == 128 && |g41| == 8 && |g42| == 1
    }
  }

  const FACE_TABLES := TableSet(G00, G01, G02, G10, G11, G12, G20, G21, G22, G40, G41, G42)

  // Of the tables the codec needs nothing but their sizes.
  type GuessTables = t: TableSet | t.Sized() witness FACE_TABLES
}
