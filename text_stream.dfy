/** The few `std::istream` extractions the OBJ/MTL parser relies on, stated over
    the characters of one line: skipping white space (`>> std::ws`), reading a
    word (`>> std::string`) and reading an unsigned 64-bit index (`>> size_t`). */
module TextStream {
  import opened Common

  /** White space as the "C" locale classifies it. */
  predicate IsSpace(c: char) {
    c == ' ' || c == '\t' || c == '\n' || c == '\r' || c == '\U{B}' || c == '\U{C}'
  }

  predicate IsDigit(c: char) {
    '0' <= c <= '9'
  }

  /** The position of the first non-space character at or after `pos`. */
  function SkipWs(text: string, pos: nat): (r: nat)
    requires pos <= |text|
    ensures pos <= r <= |text|
    ensures r < |text| ==> !IsSpace(text[r])
    decreases |text| - pos
  {
    if pos < |text| && IsSpace(text[pos]) then SkipWs(text, pos + 1) else pos
  }

  /** The end of the run of decimal digits that starts at `pos`. */
  function DigitEnd(text: string, pos: nat): (r: nat)
    requires pos <= |text|
    ensures pos <= r <= |text|
    ensures r < |text| ==> !IsDigit(text[r])
    decreases |text| - pos
  {
    if pos < |text| && IsDigit(text[pos]) then DigitEnd(text, pos + 1) else pos
  }

  function DigitValue(c: char): nat {
    if IsDigit(c) then c as int - '0' as int else 0
  }

  /** The number a string of decimal digits denotes, most significant digit first. */
  function DigitsValue(s: string): nat {
    if s == [] then 0 else DigitsValue(s[..|s| - 1]) * 10 + DigitValue(s[|s| - 1])
  }

  /** `stream >> n` for a `size_t n`: leading white space is skipped, one sign
      is accepted, at least one digit must follow; a magnitude beyond 64 bits
      fails, and a negative number wraps around modulo 2^64. On success the
      result holds the value and the position after the last digit. */
  function ReadSize(text: string, pos: nat): (r: Option<(nat, nat)>)
    requires pos <= |text|
    ensures r.Some? ==> r.value.0 < Two64 && pos < r.value.1 <= |text|
  {
    var start := SkipWs(text, pos);
    var signed := start < |text| && (text[start] == '-' || text[start] == '+');
    var first := if signed then start + 1 else start;
    var end := DigitEnd(text, first);
    if end == first then None
    else
      var magnitude := DigitsValue(text[first..end]);
      if magnitude >= Two64 then None
      else if signed && text[start] == '-' then Some(((Two64 - magnitude) % Two64, end))
      else Some((magnitude, end))
  }

  /** `stream >> word` for a `std::string word` on the rest of a line: the first
      maximal run of non-space characters, or None when the line holds none. */
  function FirstWord(text: string): (r: Option<string>)
    ensures r.Some? ==> r.value != [] && forall k :: 0 <= k < |r.value| ==> !IsSpace(r.value[k])
  {
    var start := SkipWs(text, 0);
    var end := WordEnd(text, start);
    if start == end then None else Some(text[start..end])
  }

  function WordEnd(text: string, pos: nat): (r: nat)
    requires pos <= |text|
    ensures pos <= r <= |text|
    ensures forall k :: pos <= k < r ==> !IsSpace(text[k])
    decreases |text| - pos
  {
    if pos < |text| && !IsSpace(text[pos]) then WordEnd(text, pos + 1) else pos
  }

  /** The decimal spelling of a natural number, without leading zeros. */
  function Decimal(n: nat): (s: string)
    ensures s != [] && forall k :: 0 <= k < |s| ==> IsDigit(s[k])
  {
    var d := ['0' + (n % 10) as char];
    if n < 10 then d else Decimal(n / 10) + d
  }

  lemma {:induction false} DecimalValue(n: nat)
    ensures DigitsValue(Decimal(n)) == n
  {
    var d := ['0' + (n % 10) as char];
    if n >= 10 {
      DecimalValue(n / 10);
      var s := Decimal(n / 10) + d;
      assert s[..|s| - 1] == Decimal(n / 10);
    }
  }

  /** Skipping white space stops at the first character that is not white space. */
  lemma {:induction false} SkipWsTo(text: string, pos: nat, start: nat)
    requires pos <= start <= |text|
    requires forall k :: pos <= k < start ==> IsSpace(text[k])
    requires start < |text| ==> !IsSpace(text[start])
    ensures SkipWs(text, pos) == start
    decreases start - pos
  {
    if pos < start {
      SkipWsTo(text, pos + 1, start);
    }
  }

  /** Everything `SkipWs` passes over is white space. */
  lemma {:induction false} SkipWsSpaces(text: string, pos: nat)
    requires pos <= |text|
    ensures forall k :: pos <= k < SkipWs(text, pos) ==> IsSpace(text[k])
    decreases |text| - pos
  {
    if pos < |text| && IsSpace(text[pos]) {
      SkipWsSpaces(text, pos + 1);
    }
  }

  /** A word ends at the first white space after it. */
  lemma {:induction false} WordEndAt(text: string, pos: nat, end: nat)
    requires pos <= end <= |text|
    requires forall k :: pos <= k < end ==> !IsSpace(text[k])
    requires end < |text| ==> IsSpace(text[end])
    ensures WordEnd(text, pos) == end
    decreases end - pos
  {
    if pos < end {
      WordEndAt(text, pos + 1, end);
    }
  }

  /** `stream >> word` reads the word between leading white space and the
      white space (or end of line) after it. */
  lemma FirstWordOf(pre: string, w: string, post: string)
    requires forall k :: 0 <= k < |pre| ==> IsSpace(pre[k])
    requires w != [] && forall k :: 0 <= k < |w| ==> !IsSpace(w[k])
    requires post != [] ==> IsSpace(post[0])
    ensures FirstWord(pre + w + post) == Some(w)
  {
    var t := pre + w + post;
    var a, b := |pre|, |pre| + |w|;
    assert forall k :: 0 <= k < a ==> t[k] == pre[k];
    assert forall k :: a <= k < b ==> t[k] == w[k - a];
    assert b < |t| ==> t[b] == post[0];
    SkipWsTo(t, 0, a);
    WordEndAt(t, a, b);
    assert t[a..b] == w;
  }

  /** `stream >> word` fails exactly on a line of white space. */
  lemma FirstWordBlank(text: string)
    ensures FirstWord(text).None? <==> forall k :: 0 <= k < |text| ==> IsSpace(text[k])
  {
    SkipWsSpaces(text, 0);
  }

  /** A run of digits ends where the digits do. */
  lemma {:induction false} DigitEndAt(text: string, pos: nat, end: nat)
    requires pos <= end <= |text|
    requires forall k :: pos <= k < end ==> IsDigit(text[k])
    requires end < |text| ==> !IsDigit(text[end])
    ensures DigitEnd(text, pos) == end
    decreases end - pos
  {
    if pos < end {
      DigitEndAt(text, pos + 1, end);
    }
  }

  /** A non-empty run of digits. */
  predicate AllDigits(s: string) {
    s != [] && forall k :: 0 <= k < |s| ==> IsDigit(s[k])
  }

  /** White space followed by a run of digits whose value is below 2^64 and
      then by a non-digit (or the end of the line) reads as that value,
      ending just after the last digit. */
  lemma ReadSizeDigits(text: string, pos: nat, start: nat, ds: string)
    requires AllDigits(ds) && DigitsValue(ds) < Two64
    requires pos <= start && start + |ds| <= |text|
    requires forall k :: pos <= k < start ==> IsSpace(text[k])
    requires text[start..start + |ds|] == ds
    requires start + |ds| < |text| ==> !IsDigit(text[start + |ds|])
    ensures ReadSize(text, pos) == Some((DigitsValue(ds), start + |ds|))
  {
    var end := start + |ds|;
    assert text[start] == ds[0];
    SkipWsTo(text, pos, start);
    forall k | start <= k < end ensures IsDigit(text[k]) {
      assert text[k] == ds[k - start];
    }
    DigitEndAt(text, start, end);
  }

  /** Round trip: white space followed by the decimal spelling of an index below
      2^64 and then by a non-digit (or the end of the line) reads back as that
      index, ending just after its last digit. */
  lemma ReadSizeDecimal(text: string, pos: nat, start: nat, n: nat)
    requires n < Two64
    requires pos <= start && start + |Decimal(n)| <= |text|
    requires forall k :: pos <= k < start ==> IsSpace(text[k])
    requires text[start..start + |Decimal(n)|] == Decimal(n)
    requires start + |Decimal(n)| < |text| ==> !IsDigit(text[start + |Decimal(n)|])
    ensures ReadSize(text, pos) == Some((n, start + |Decimal(n)|))
  {
    DecimalValue(n);
    ReadSizeDigits(text, pos, start, Decimal(n));
  }
}
