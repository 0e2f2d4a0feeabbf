/**
 * Charset conversion as StringToBytesEncondeConverter.convertString performs it.
 * The runtime's charset tables are not modelled: the registry of supported charsets,
 * each with the encoder String.getBytes uses for it, is a parameter.
 */
module Charsets {
  import opened Wrappers

  /** Java's signed 8-bit byte. */
  newtype JByte = x: int | -128 <= x < 128

  /** The runtime's charset registry: each supported charset name with its encoder. */
  type Registry = map<string, string -> seq<JByte>>

  predicate Supported(reg: Registry, charset: string)
  {
    charset in reg
  }

  /** The bytes of `s` in `charset` (String.getBytes(charset)). */
  function Encode(reg: Registry, s: string, charset: string): seq<JByte>
    requires Supported(reg, charset)
  {
    reg[charset](s)
  }

  /**
   * convertString: encodes `s` under the source charset (only to check that it is
   * supported; the bytes go to the log), then under the target charset, and returns
   * the target bytes. An unsupported name fails with UnsupportedEncodingException,
   * modelled as Err carrying the offending name; the source is checked first.
   */
  function ConvertString(reg: Registry, s: string, source: string, target: string): (r: Result<seq<JByte>, string>)
    ensures r.Ok? <==> Supported(reg, source) && Supported(reg, target)
    ensures r.Ok? ==> r.value == Encode(reg, s, target)
    ensures r.Err? ==> r.error == if Supported(reg, source) then target else source
  {
    if !Supported(reg, source) then Err(source)
    else if !Supported(reg, target) then Err(target)
    else Ok(Encode(reg, s, target))
  }

  /** The source charset never changes the bytes produced, only whether conversion fails. */
  lemma SourceCharsetDoesNotAffectBytes(reg: Registry, s: string, source1: string, source2: string, target: string)
    requires Supported(reg, source1) && Supported(reg, source2)
    ensures ConvertString(reg, s, source1, target) == ConvertString(reg, s, source2, target)
  {
  }

  /** Converting with source = target gives the same bytes as encoding once under that charset. */
  lemma SameCharsetIsPlainEncoding(reg: Registry, s: string, charset: string)
    requires Supported(reg, charset)
    ensures ConvertString(reg, s, charset, charset) == Ok(Encode(reg, s, charset))
  {
  }
}
