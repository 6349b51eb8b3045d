/** The quality lookup tables: a quality label to the provider's `qn` code and `fnval`
    format flag, and a `qn` code back to its label. Unknown keys give a sentinel. */
module Resolution {
  import opened Wrappers
  import opened Numbers

  /** The eight quality labels, best first. */
  const Labels: seq<string> := ["HDR", "4K", "1080P+", "1080P60", "1080P", "720P", "480P", "360P"]

  /** The `qn` code of each label, position by position. */
  const Codes: seq<string> := ["125", "120", "112", "116", "80", "64", "32", "16"]

  /** The same codes as numbers. */
  const CodeValues: seq<int> := [125, 120, 112, 116, 80, 64, 32, 16]

  const QnTable: map<string, string> := map[
    "HDR" := "125", "4K" := "120", "1080P+" := "112", "1080P60" := "116",
    "1080P" := "80", "720P" := "64", "480P" := "32", "360P" := "16"]

  const FnvalTable: map<string, string> := map["HDR" := "80", "4K" := "144"]

  const RslTable: map<string, string> := map[
    "125" := "HDR", "120" := "4K", "112" := "1080P+", "116" := "1080P60",
    "80" := "1080P", "64" := "720P", "32" := "480P", "16" := "360P"]

  predicate IsLabel(s: string) { s in Labels }

  /** `qn`: the quality code of a label, "" for any other string. */
  function Qn(quality: string): (code: string)
    ensures code != "" <==> IsLabel(quality)
    ensures forall k :: 0 <= k < |Labels| && quality == Labels[k] ==> code == Codes[k]
  {
    if quality in QnTable then QnTable[quality] else ""
  }

  /** `fnval`: the format flag asked for with a label; "16" for everything but HDR and 4K. */
  function Fnval(quality: string): (flag: string)
    ensures quality == "HDR" ==> flag == "80"
    ensures quality == "4K" ==> flag == "144"
    ensures quality != "HDR" && quality != "4K" ==> flag == "16"
  {
    if quality in FnvalTable then FnvalTable[quality] else "16"
  }

  /** `rsl`: the label of a quality code, "" for any other string. */
  function Rsl(code: string): (quality: string)
    ensures quality != "" <==> code in Codes
    ensures forall k :: 0 <= k < |Codes| && code == Codes[k] ==> quality == Labels[k]
  {
    if code in RslTable then RslTable[code] else ""
  }

  /** `rsl` undoes `qn` on every label. */
  lemma RslQn(quality: string)
    requires IsLabel(quality)
    ensures Rsl(Qn(quality)) == quality
  {
    var k :| 0 <= k < |Labels| && quality == Labels[k];
    assert Qn(quality) == Codes[k];
  }

  /** `qn` undoes `rsl` on every code. */
  lemma QnRsl(code: string)
    requires code in Codes
    ensures Qn(Rsl(code)) == code
  {
    var k :| 0 <= k < |Codes| && code == Codes[k];
    assert Rsl(code) == Labels[k];
  }

  /** No two labels share a code. */
  lemma QnInjective(a: string, b: string)
    requires Qn(a) == Qn(b) != ""
    ensures a == b
  {
    RslQn(a);
    RslQn(b);
  }

  /** Each code is the decimal text of its number. */
  lemma CodesPrintValues()
    ensures |Codes| == |CodeValues|
    ensures forall k :: 0 <= k < |Codes| ==> Codes[k] == ToDecimal(CodeValues[k])
  {
    assert ToDecimal(125) == "125" && ToDecimal(120) == "120" && ToDecimal(112) == "112";
    assert ToDecimal(116) == "116" && ToDecimal(80) == "80" && ToDecimal(64) == "64";
    assert ToDecimal(32) == "32" && ToDecimal(16) == "16";
  }

  /** Each code parses as an i32 to its number. */
  lemma CodesParse()
    ensures forall k :: 0 <= k < |Codes| ==> ParseI32(Codes[k]) == Some(CodeValues[k])
  {
    CodesPrintValues();
    forall k | 0 <= k < |Codes| ensures ParseI32(Codes[k]) == Some(CodeValues[k]) {
      ParseToDecimal(CodeValues[k], -TwoTo31, TwoTo31);
    }
  }

  /** The `unwrap` on `qn(quality).parse::<i32>()` succeeds exactly on the eight labels, and
      gives the label's code. */
  lemma QnParses(quality: string)
    ensures ParseI32(Qn(quality)).Some? <==> IsLabel(quality)
    ensures forall k :: 0 <= k < |Labels| && quality == Labels[k] ==> ParseI32(Qn(quality)) == Some(CodeValues[k])
  {
    CodesParse();
  }

  /** The quality printed for a resolved numeric code (`rsl(qn.to_string())`) is a real quality
      exactly when the number is one of the eight codes. */
  lemma RslOfNumber(q: int)
    ensures Rsl(ToDecimal(q)) != "" <==> q in CodeValues
    ensures forall k :: 0 <= k < |CodeValues| && q == CodeValues[k] ==> Rsl(ToDecimal(q)) == Labels[k]
  {
    CodesPrintValues();
    if ToDecimal(q) in Codes {
      var k :| 0 <= k < |Codes| && ToDecimal(q) == Codes[k];
      ToDecimalInjective(q, CodeValues[k]);
    }
  }
}
