/** The growable byte buffer of one client process (K2hFtBinBuff). */
module BinBuff {
  import opened Bytes

  const BUFFER_SINGLE_SIZE: nat := 8192

  function Max(a: nat, b: nat): nat { if a < b then b else a }

  class BinBuff {
    var cacheBuff: array?<char>
    var cacheBuffSize: nat
    var cacheBuffPos: nat

    ghost predicate Valid()
      reads this, cacheBuff
    {
      && cacheBuffPos <= cacheBuffSize
      && (cacheBuff == null ==> cacheBuffSize == 0)
      && (cacheBuff != null ==> cacheBuff.Length == cacheBuffSize)
    }

    /** The byte sequence that the buffer stands for. */
    ghost function Contents(): string
      reads this, cacheBuff
      requires Valid()
    {
      if cacheBuff == null then "" else cacheBuff[..cacheBuffPos]
    }

    constructor ()
      ensures Valid() && Contents() == "" && cacheBuff == null
    {
      cacheBuff, cacheBuffSize, cacheBuffPos := null, 0, 0;
    }

    /** One growth step of max(8192, length + 1) always leaves room for `length` bytes and a NUL. */
    method Reserve(length: nat)
      requires Valid()
      modifies this
      ensures Valid() && cacheBuff != null && Contents() == old(Contents())
      ensures cacheBuffPos == old(cacheBuffPos) && cacheBuffPos + length + 1 <= cacheBuffSize
      ensures cacheBuffSize == if old(cacheBuffSize) >= cacheBuffPos + length + 1 then old(cacheBuffSize)
                               else old(cacheBuffSize) + if length + 1 > 8192 then length + 1 else 8192
      ensures cacheBuff != old(cacheBuff) ==> fresh(cacheBuff)
    {
      if cacheBuffSize < cacheBuffPos + length + 1 {
        cacheBuffSize := cacheBuffSize + Max(BUFFER_SINGLE_SIZE, length + 1);
        cacheBuff := Realloc(cacheBuff, cacheBuffSize);
      }
    }

    /** The last-byte check reads the byte before the end, so with it the buffer may not stay empty. */
    method AppendStringBuff(data: string, checkLastChar: bool)
      requires Valid()
      requires checkLastChar ==> Contents() + data != ""
      modifies this, cacheBuff
      ensures Valid() && cacheBuff != null
      ensures cacheBuff != old(cacheBuff) ==> fresh(cacheBuff)
      ensures var appended := old(Contents()) + data;
              Contents() == if checkLastChar && appended[|appended| - 1] != '\0' then appended + ['\0'] else appended
    {
      Reserve(|data|);
      if 0 < |data| {
        Memcpy(cacheBuff, cacheBuffPos, data);
        cacheBuffPos := cacheBuffPos + |data|;
      }
      assert cacheBuff[..cacheBuffPos] == old(Contents()) + data;
      if checkLastChar && cacheBuff[cacheBuffPos - 1] != '\0' {
        cacheBuff[cacheBuffPos] := '\0';
        cacheBuffPos := cacheBuffPos + 1;
      }
    }

    /** The block changes hands: the caller gets it, the buffer starts again with none. */
    method TakeoutBuff() returns (data: array?<char>, length: nat)
      requires Valid()
      modifies this
      ensures Valid() && Contents() == "" && cacheBuff == null
      ensures data == old(cacheBuff) && length == |old(Contents())|
      ensures data == null ==> old(Contents()) == ""
      ensures data != null ==> length <= data.Length && data[..length] == old(Contents())
    {
      data, length := cacheBuff, cacheBuffPos;
      cacheBuff, cacheBuffSize, cacheBuffPos := null, 0, 0;
    }

    function IsEmpty(): (empty: bool)
      reads this, cacheBuff
      requires Valid()
      ensures empty <==> Contents() == ""
    {
      cacheBuffPos == 0
    }

    function Size(): (size: nat)
      reads this, cacheBuff
      requires Valid()
      ensures size == |Contents()|
    {
      cacheBuffPos
    }
  }
}
