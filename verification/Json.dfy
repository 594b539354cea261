/** JSON values as Python's json module reads and writes them, and the few facts about
    serialisation and hashing that the audit chain relies on. */
module Json {

  datatype Option<+T> = None | Some(value: T)

  /** A binary floating-point numeral, mantissa * 2^exponent in lowest terms. */
  datatype FloatParts = FloatParts(mantissa: int, exponent: int)

  const MANTISSA_BOUND := 0x20_0000_0000_0000

  /** Of magnitude m * 2^exponent for an odd m: at most 53 significant bits, no smaller than the least
      subnormal number, and below 2^1024. */
  predicate IsDouble(m: nat, exponent: int) {
    && m % 2 == 1 && m < MANTISSA_BOUND
    && -1074 <= exponent < 1024
    && (exponent > 971 ==> m < Pow2(1024 - exponent))
  }

  /** The finite numbers of double precision. */
  type Float = f: FloatParts | f == FloatParts(0, 0) || IsDouble(if f.mantissa < 0 then -f.mantissa else f.mantissa, f.exponent)
    witness FloatParts(0, 0)

  datatype Value =
    | Null
    | Bool(flag: bool)
    | Int(number: int)
    | Real(float: Float)
    | Str(text: string)
    | Array(items: seq<Value>)
    | Object(fields: Entry)

  /** A JSON object; one audit entry is one of these. */
  type Entry = map<string, Value>

  function Pow2(n: nat): (p: int)
    ensures p > 0
  {
    if n == 0 then 1 else 2 * Pow2(n - 1)
  }

  /** The integer that `v` is equal to under Python's `==`, if there is one: True == 1 == 1.0. */
  function IntegerValue(v: Value): Option<int> {
    match v
    case Int(n) => Some(n)
    case Bool(b) => Some(if b then 1 else 0)
    case Real(f) => if f.exponent >= 0 then Some(f.mantissa * Pow2(f.exponent)) else None
    case _ => None
  }

  /** int(f): truncation toward zero. */
  function Truncated(f: Float): int {
    var m, e := f.mantissa, f.exponent;
    if e >= 0 then m * Pow2(e) else if m >= 0 then m / Pow2(-e) else -((-m) / Pow2(-e))
  }

  /** What json.loads makes of a text. */
  datatype Parsed = Malformed | NonObject | Object(entry: Entry)

  /** What datetime.fromisoformat makes of a timestamp. */
  datatype IsoTime = Unreadable | Naive | Aware(seconds: int)

  /** The Unicode characters that Python's str.strip() removes. */
  predicate IsSpace(c: char) {
    || '\t' <= c <= '\r' || '\U{1C}' <= c <= ' ' || c == '\U{85}' || c == '\U{A0}' || c == '\U{1680}'
    || '\U{2000}' <= c <= '\U{200A}' || c == '\U{2028}' || c == '\U{2029}' || c == '\U{202F}'
    || c == '\U{205F}' || c == '\U{3000}'
  }

  function LStrip(s: string): string {
    if s != [] && IsSpace(s[0]) then LStrip(s[1..]) else s
  }

  function RStrip(s: string): string {
    if s != [] && IsSpace(s[|s| - 1]) then RStrip(s[..|s| - 1]) else s
  }

  function Strip(s: string): string {
    RStrip(LStrip(s))
  }

  /** The library functions the audit module calls. Their internals are not modelled:
      every result holds for any functions that satisfy Valid(). */
  datatype Codec = Codec(
    dump: Entry -> string,            // json.dumps
    parse: string -> Parsed,          // json.loads
    hash: Entry -> string,            // SHA-256 of the canonical JSON text
    intOfText: string -> Option<int>, // int(text), None for ValueError
    textOf: Value -> string,          // str(value) of a value that is not a string
    isoTime: string -> IsoTime        // fromisoformat(text.replace("Z", "+00:00"))
  ) {
    /** A dumped entry is one line without surrounding space that parses back to the same entry. */
    ghost predicate RoundTrips(e: Entry) {
      OneLine(dump(e)) && parse(dump(e)) == Parsed.Object(e)
    }

    /** Space around a document does not change what it parses to. */
    ghost predicate IgnoresSpace(s: string) {
      parse(s).Malformed? || parse(Strip(s)) == parse(s)
    }

    /** A text that is one object across a carriage return is no object before it, unless one side is blank:
        inside an object the return can only be space between tokens. */
    ghost predicate IsOneDocument(a: string, b: string) {
      parse(a + "\r" + b).Object? ==> Strip(a) == "" || Strip(b) == "" || parse(Strip(a)).Malformed?
    }

    ghost predicate Valid() {
      && (forall e: Entry :: RoundTrips(e))
      && (forall s: string :: IgnoresSpace(s))
      && (forall a: string, b: string :: IsOneDocument(a, b))
      && parse("").Malformed?
    }
  }

  predicate OneLine(s: string) {
    s != [] && '\n' !in s && '\r' !in s && !IsSpace(s[0]) && !IsSpace(s[|s| - 1])
  }

  lemma StripOneLine(s: string)
    requires OneLine(s)
    ensures Strip(s) == s
  {
  }
}
