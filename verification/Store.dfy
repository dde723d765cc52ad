/** The two copies of the map and the index that selects one of them. */
module Store {

  /** `First` is encoded as 0 and `Second` as 1 (src/core/store.rs). */
  datatype MapIndex = First | Second {
    function Other(): MapIndex {
      if First? then Second else First
    }

    function Bit(): nat {
      if First? then 0 else 1
    }
  }

  /** The unchecked conversion from a word; only 0 and 1 are encodings. */
  function FromUsize(word: nat): MapIndex
    requires word < 2
  {
    if word == 0 then First else Second
  }

  /** The array of two maps shared by the writer and all readers. */
  datatype Tables<T> = Tables(first: T, second: T) {
    function Get(i: MapIndex): T {
      if i.First? then first else second
    }

    function Set(i: MapIndex, t: T): Tables<T> {
      if i.First? then Tables(t, second) else Tables(first, t)
    }
  }

  /** The copy that holds version `n`: versions alternate, starting in `First`. */
  function IndexOf(n: nat): MapIndex {
    if n == 0 then First else IndexOf(n - 1).Other()
  }
}
