/** Record identifiers: MongoDB ObjectIds, and their text form. */
module ObjectIds {
  import opened Text

  /** An ObjectId. Ids are handed out in increasing order, so id order is insertion order. */
  type Id = nat

  /** `_id.toString()`: twelve bytes printed as 24 lower-case hexadecimal digits. */
  function IdString(id: Id): (s: string)
    ensures |s| == 24 && AllHexDigits(s)
  {
    HexDigits(id, 24)
  }

  /** `parseInt(_id.toString().slice(-4), 16)` is the id's low sixteen bits. */
  lemma LastFourHexDigits(id: Id)
    ensures ParseHex(IdString(id)[20..]) == id % 65536
  {
    HexDigitsSuffix(id, 24, 4);
    ParseHexDigits(id, 4);
    assert Pow(16, 4) == 65536 by {
      assert Pow(16, 2) == 256;
    }
  }
}
