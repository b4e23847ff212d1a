/** Fixed-width, NUL-terminated fields of UTF-16 units, and the session key that one of them carries. */
module WideText {
  import opened NativeTypes
  import opened Wrappers

  /** The text before the first NUL. */
  function DecodeFixed(value: seq<Unit>): SysResult<seq<Unit>> {
    if value == [] then Err(MalformedOutput)
    else if value[0] == 0 then Ok([])
    else match DecodeFixed(value[1..])
      case Err(e) => Err(e)
      case Ok(rest) => Ok([value[0]] + rest)
  }

  lemma {:induction false} DecodeFixedExact(value: seq<Unit>, text: seq<Unit>)
    ensures DecodeFixed(value) == Ok(text) <==>
            |text| < |value| && value[..|text|] == text && 0 !in text && value[|text|] == 0
    decreases |value|
  {
    if value != [] && text != [] {
      DecodeFixedExact(value[1..], text[1..]);
      assert text == [text[0]] + text[1..];
      if |text| < |value| {
        assert value[..|text|] == [value[0]] + value[1..][..|text| - 1];
      }
    } else if value != [] {
      assert value[..0] == [];
    }
  }

  const CCH_RM_SESSION_KEY: nat := 32

  predicate IsHexDigit(unit: Unit) {
    '0' as int <= unit <= '9' as int || 'A' as int <= unit <= 'F' as int || 'a' as int <= unit <= 'f' as int
  }

  /** 32 ASCII hexadecimal digits. */
  predicate IsValidKey(key: seq<Unit>) {
    |key| == CCH_RM_SESSION_KEY && forall i | 0 <= i < |key| :: IsHexDigit(key[i])
  }

  /**
    The key that RmStartSession wrote. Text that is not valid Unicode holds a unit that is no digit, so that
    it fails as every other malformed key does.
   */
  function SessionKey(field: seq<Unit>): SysResult<seq<Unit>> {
    match DecodeFixed(field)
    case Err(e) => Err(e)
    case Ok(key) => if IsValidKey(key) then Ok(key) else Err(MalformedOutput)
  }

  /** A key is accepted exactly if the field starts with it, a NUL behind it, and it is 32 digits. */
  lemma SessionKeyExact(field: seq<Unit>, key: seq<Unit>)
    ensures SessionKey(field) == Ok(key) <==> IsValidKey(key) && |field| > |key| && field[..|key|] == key && field[|key|] == 0
  {
    DecodeFixedExact(field, key);
  }
}
