/** A key definition: the base keys, the checksum and hash kinds, the dash
    spacing and the display mask that generators and validators share. */
module KeyDefinitions {
  import opened Words
  import opened Results
  import opened Algorithms

  /** `keys.map((k) => (k | 0) >>> 0)`: each key as an unsigned word. */
  function NormalizedKeys(keys: seq<int>): (r: seq<u32>)
    ensures |r| == |keys|
    ensures forall i :: 0 <= i < |keys| ==> r[i] == Mask32(keys[i])
  {
    seq(|keys|, i requires 0 <= i < |keys| => Mask32(keys[i]))
  }

  /** The hash kinds resolved one by one; the first Jenkins06 throws. */
  function CreateHashes(types: seq<HashType>): (r: Result<seq<HashAlgorithm>>)
    ensures r.Err? <==> Jenkins06 in types
    ensures r.Err? ==> r.error == Jenkins06Unsupported
    ensures r.Ok? ==> |r.value| == |types|
    ensures r.Ok? ==> forall i :: 0 <= i < |types| ==> r.value[i] == CreateHash(types[i])
  {
    if types == [] then Ok([])
    else if types[0] == Jenkins06 then Err(Jenkins06Unsupported)
    else
      match CreateHashes(types[1..])
      case Err(e) => Err(e)
      case Ok(rest) => Ok([CreateHash(types[0])] + rest)
  }

  class KeyDefinition {
    var baseKeys: seq<u32>
    /** `checksum!` is declared but not initialised: None until it is set. */
    var checksum: Option<ChecksumType>
    var hashFunctions: seq<HashType>
    var spacing: int
    var mask: string

    constructor()
      ensures baseKeys == [] && checksum == None && hashFunctions == []
      ensures spacing == 0 && mask == ""
    {
      baseKeys := [];
      checksum := None;
      hashFunctions := [];
      spacing := 0;
      mask := "";
    }

    function GetBaseKeys(): seq<u32>
      reads this
    {
      baseKeys
    }

    method SetBaseKeys(keys: seq<int>)
      modifies this
      ensures baseKeys == NormalizedKeys(keys)
      ensures checksum == old(checksum) && hashFunctions == old(hashFunctions)
      ensures spacing == old(spacing) && mask == old(mask)
    {
      baseKeys := NormalizedKeys(keys);
    }

    function GetChecksumType(): Option<ChecksumType>
      reads this
    {
      checksum
    }

    method SetChecksumType(t: ChecksumType)
      modifies this
      ensures checksum == Some(t)
      ensures baseKeys == old(baseKeys) && hashFunctions == old(hashFunctions)
      ensures spacing == old(spacing) && mask == old(mask)
    {
      checksum := Some(t);
    }

    function GetHashTypes(): seq<HashType>
      reads this
    {
      hashFunctions
    }

    method SetHashTypes(types: seq<HashType>)
      modifies this
      ensures hashFunctions == types
      ensures baseKeys == old(baseKeys) && checksum == old(checksum)
      ensures spacing == old(spacing) && mask == old(mask)
    {
      hashFunctions := types;
    }

    /** `spacing | 0`, which the setter already stored as a signed 32-bit value. */
    function GetSpacing(): (r: int)
      reads this
      ensures -0x8000_0000 <= spacing < 0x8000_0000 ==> r == spacing
    {
      ToInt32(spacing)
    }

    method SetSpacing(s: int)
      modifies this
      ensures spacing == ToInt32(s)
      ensures baseKeys == old(baseKeys) && checksum == old(checksum)
      ensures hashFunctions == old(hashFunctions) && mask == old(mask)
    {
      spacing := ToInt32(s);
    }

    function GetMask(): string
      reads this
    {
      mask
    }

    method SetMask(m: string)
      modifies this
      ensures mask == m
      ensures baseKeys == old(baseKeys) && checksum == old(checksum)
      ensures hashFunctions == old(hashFunctions) && spacing == old(spacing)
    {
      mask := m;
    }

    /** getChecksum: fails while no checksum kind has been set. */
    function GetChecksum(): (r: Result<ChecksumAlgorithm>)
      reads this
      ensures r.Ok? <==> checksum.Some?
      ensures r.Ok? ==> ChecksumKind(r.value) == checksum.value
    {
      CreateChecksum(checksum)
    }

    /** getHashFunctions: one algorithm per hash kind, in order, unless a
        kind is Jenkins06, which this path refuses. */
    function GetHashFunctions(): (r: Result<seq<HashAlgorithm>>)
      reads this
      ensures r.Err? <==> Jenkins06 in hashFunctions
      ensures r.Ok? ==> |r.value| == |hashFunctions|
      ensures r.Ok? ==> forall i :: 0 <= i < |hashFunctions| ==> HashKind(r.value[i]) == hashFunctions[i]
    {
      CreateHashes(hashFunctions)
    }
  }
}
