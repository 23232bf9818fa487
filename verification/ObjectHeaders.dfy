/**
 * Object headers (objectheader.h). A header at address `h` describes the object at `h + 8`. Its free bit is kept in
 * the next header. Each field is a map from header addresses: a field that was never written has no value.
 */
module ObjectHeaders {

  // sizeof(ObjectHeader) and sizeof(list_head) on the 32-bit target
  const HEADER := 8
  const LINKS := 8

  datatype Headers = Headers(size: map<int, int>, prevSize: map<int, int>, prevFree: map<int, bool>)

  /** `getNextHeader`. */
  function Next(hd: Headers, h: int): int
    requires h in hd.size
  {
    h + HEADER + hd.size[h]
  }

  /** `getPrevHeader`. */
  function Prev(hd: Headers, h: int): int
    requires h in hd.prevSize
  {
    h - hd.prevSize[h] - HEADER
  }

  /** `isFree` can be asked. */
  ghost predicate HasFreeBit(hd: Headers, h: int) {
    h in hd.size && Next(hd, h) in hd.prevFree
  }

  function IsFree(hd: Headers, h: int): bool
    requires HasFreeBit(hd, h)
  {
    hd.prevFree[Next(hd, h)]
  }

  /** The memory that holds the headers. */
  class HeaderStore {
    var hd: Headers

    constructor ()
      ensures hd == Headers(map[], map[], map[])
    {
      hd := Headers(map[], map[], map[]);
    }

    method WriteSize(h: int, size: int)
      modifies this
      ensures hd == old(hd).(size := old(hd).size[h := size])
    {
      hd := hd.(size := hd.size[h := size]);
    }

    method WritePrevSize(h: int, size: int)
      modifies this
      ensures hd == old(hd).(prevSize := old(hd).prevSize[h := size])
    {
      hd := hd.(prevSize := hd.prevSize[h := size]);
    }

    method WritePrevFree(h: int, free: bool)
      modifies this
      ensures hd == old(hd).(prevFree := old(hd).prevFree[h := free])
    {
      hd := hd.(prevFree := hd.prevFree[h := free]);
    }

    /** `setFree`. */
    method SetFree(h: int, free: bool)
      requires h in hd.size
      modifies this
      ensures hd == old(hd).(prevFree := old(hd).prevFree[Next(old(hd), h) := free])
    {
      WritePrevFree(Next(hd, h), free);
    }
  }
}
