/** The verification-code generator (BE/server/src/utils/generateCode.js). The
    values `Math.random()` returns are an input: one roll in [0, 1) per
    character. */
module CodeGen {
  import Validate

  const Alphabet: string := "123456789"
  const DefaultLength: int := 4

  /** `Math.floor(roll * chars.length)`. */
  function Pick(roll: real): (k: nat)
    requires 0.0 <= roll < 1.0
    ensures k < |Alphabet|
  {
    var f := (roll * 9.0).Floor;
    assert 0.0 <= roll * 9.0 < 9.0;
    f
  }

  predicate Rolls(rolls: seq<real>) {
    forall k :: 0 <= k < |rolls| ==> 0.0 <= rolls[k] < 1.0
  }

  /** The code the loop builds for `length` from the first rolls. */
  function Code(length: int, rolls: seq<real>): (code: string)
    requires Rolls(rolls) && length <= |rolls|
    ensures |code| == (if length > 0 then length else 0)
    ensures forall k :: 0 <= k < |code| ==> code[k] in Alphabet && code[k] != '0'
  {
    if length <= 0 then "" else Code(length - 1, rolls) + [Alphabet[Pick(rolls[length - 1])]]
  }

  /** `generateCode(length)`: the `for` loop appending one alphabet character per
      roll. */
  method GenerateCode(length: int, rolls: seq<real>) returns (code: string)
    requires Rolls(rolls) && length <= |rolls|
    ensures code == Code(length, rolls)
    ensures |code| == (if length > 0 then length else 0)
    ensures forall k :: 0 <= k < |code| ==> code[k] == Alphabet[Pick(rolls[k])]
  {
    code := "";
    var i := 0;
    while i < length
      invariant 0 <= i <= (if length > 0 then length else 0)
      invariant code == Code(i, rolls)
      invariant forall k :: 0 <= k < |code| ==> code[k] == Alphabet[Pick(rolls[k])]
    {
      code := code + [Alphabet[Pick(rolls[i])]];
      i := i + 1;
    }
  }

  /** Every code of the default length passes the client's four-digit check. */
  lemma DefaultCodePassesClientCheck(rolls: seq<real>)
    requires Rolls(rolls) && DefaultLength <= |rolls|
    ensures Validate.ValidateAuthNumber(Code(DefaultLength, rolls))
  {
    var code := Code(DefaultLength, rolls);
    forall k | 0 <= k < 4 ensures '0' <= code[k] <= '9' {
      assert code[k] in Alphabet;
    }
  }
}
