/** Vocabulary shared by every component: optional values and the machine's bytes and words. */
module Common {
  datatype Option<+T> = None | Some(value: T)

  type byte = x: int | 0 <= x < 0x100
  type uint32 = x: int | 0 <= x < 0x1_0000_0000
  type Bytes = seq<byte>

  /** The bytes before the first NUL, or all of them when there is none. */
  function UntilNul(data: Bytes): (r: Bytes)
    ensures 0 !in r
    ensures r <= data
    ensures r == data || data[|r|] == 0
  {
    if data == [] || data[0] == 0 then [] else [data[0]] + UntilNul(data[1..])
  }

  lemma UntilNulIdempotent(data: Bytes)
    requires 0 !in data
    ensures UntilNul(data) == data
  {}

  /** strnlen: cutting a NUL-free name followed by a NUL gives the name back. */
  lemma {:induction false} UntilNulTerminated(name: Bytes, rest: Bytes)
    requires 0 !in name
    ensures UntilNul(name + [0] + rest) == name
  {
    if name == [] {
      assert (name + [0] + rest)[0] == 0;
    } else {
      assert name[0] in name;
      UntilNulTerminated(name[1..], rest);
      assert (name + [0] + rest)[1..] == name[1..] + [0] + rest;
    }
  }
}
