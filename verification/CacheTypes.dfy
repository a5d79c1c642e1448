/**
 * The entities shared by every part of the cache: keys, the entry record of the
 * shared array, and the layout constants.
 */
module CacheTypes {

  const U32: int := 0x1_0000_0000
  const INDEXER_NULL: nat := 0xFFF_FFFF

  /** Pages in a cache block: 32 KB blocks of 4 KB pages. */
  const PAGES: nat := 8

  /** A non-terminating `char` of a C string, signed as on the supported platforms. */
  type CChar = c: int | -128 <= c < 128 && c != 0 witness 1

  /** A file name that fits the smallest buffer it is copied into, the worker's local one. */
  type Path = p: seq<CChar> | |p| < 32

  type Word = x: int | 0 <= x < U32

  /** What the table is indexed by: a file and the index of a 32 KB block in it. */
  datatype Key = Key(path: Path, index: Word)

  /** The flag bits and the key of an entry. */
  datatype Cell = Cell(pending: bool, dirty: bool, alloc: bool, key: Key)

  /** One element of the shared entry array. */
  datatype Entry = Entry(hashNext: nat, prev: nat, next: nat, cell: Cell)

  datatype Option<+T> = None | Some(value: T)

  /** The key `init_entry` leaves behind. */
  const BLANK_KEY: Key := Key([], INDEXER_NULL)
}
