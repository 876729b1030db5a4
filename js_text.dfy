/**
 * The few JavaScript string operations the service relies on:
 * `String.prototype.indexOf` / `split` with a non-empty separator,
 * the unary `+` coercion of a string to a number (restricted to decimal
 * text), and the rendering of integers inside template literals.
 */
module JsText {
  import opened Wrappers

  /** `sep` occurs in `s` starting at index `i`. */
  predicate OccursAt(s: string, sep: string, i: nat)
  {
    i + |sep| <= |s| && s[i..i + |sep|] == sep
  }

  /** `s.indexOf(sep, from)`: the first occurrence at or after `from`, if any. */
  function IndexOf(s: string, sep: string, from: nat): (r: Option<nat>)
    requires from <= |s|
    decreases |s| - from
    ensures r.Some? ==> from <= r.value <= |s| && OccursAt(s, sep, r.value)
    ensures r.Some? ==> forall k :: from <= k < r.value ==> !OccursAt(s, sep, k)
    ensures r.None? ==> forall k :: from <= k <= |s| ==> !OccursAt(s, sep, k)
  {
    if OccursAt(s, sep, from) then Some(from)
    else if from == |s| then None
    else IndexOf(s, sep, from + 1)
  }

  /** `s.split(sep)` for a non-empty separator: the pieces between successive
      left-to-right occurrences of `sep`. */
  function Split(s: string, sep: string): (r: seq<string>)
    requires sep != ""
    decreases |s|
    ensures |r| >= 1
  {
    match IndexOf(s, sep, 0)
    case None => [s]
    case Some(i) => [s[..i]] + Split(s[i + |sep|..], sep)
  }

  /** `pieces.join(sep)`, the inverse of `Split`. */
  function Join(pieces: seq<string>, sep: string): string
    decreases |pieces|
  {
    if |pieces| == 0 then ""
    else if |pieces| == 1 then pieces[0]
    else pieces[0] + sep + Join(pieces[1..], sep)
  }

  /** `parts[k]`, which is `undefined` past the end of the array. */
  function At(parts: seq<string>, k: nat): Option<string>
  {
    if k < |parts| then Some(parts[k]) else None
  }

  /** Joining the pieces of a split gives back the original text. */
  lemma {:induction false} JoinSplit(s: string, sep: string)
    requires sep != ""
    ensures Join(Split(s, sep), sep) == s
    decreases |s|
  {
    match IndexOf(s, sep, 0)
    case None =>
    case Some(i) =>
      var rest := s[i + |sep|..];
      var tail := Split(rest, sep);
      JoinSplit(rest, sep);
      assert Split(s, sep) == [s[..i]] + tail;
      assert ([s[..i]] + tail)[1..] == tail;
      assert Join([s[..i]] + tail, sep) == s[..i] + sep + Join(tail, sep);
      assert s[i..i + |sep|] == sep;
      assert s == s[..i] + s[i..i + |sep|] + rest;
  }

  /** `split` cuts at the leftmost occurrences: the separator starts
      inside no piece, not even one running on into the text after it
      (together with `JoinSplit`, this pins the pieces down for every text). */
  lemma {:induction false} SplitLeftmost(s: string, sep: string)
    requires sep != ""
    ensures forall k, i :: 0 <= k < |Split(s, sep)| && 0 <= i < |Split(s, sep)[k]| ==>
              !OccursAt(Join(Split(s, sep)[k..], sep), sep, i)
    decreases |s|
  {
    var r := Split(s, sep);
    match IndexOf(s, sep, 0)
    case None =>
      assert r == [s];
      assert r[0..] == [s];
    case Some(idx) =>
      var rest := s[idx + |sep|..];
      var tail := Split(rest, sep);
      assert r == [s[..idx]] + tail;
      SplitLeftmost(rest, sep);
      JoinSplit(s, sep);
      assert r[0..] == r;
      forall k, i | 0 <= k < |r| && 0 <= i < |r[k]|
        ensures !OccursAt(Join(r[k..], sep), sep, i)
      {
        if k > 0 {
          assert r[k..] == tail[k - 1..];
          assert r[k] == tail[k - 1];
        }
      }
  }

  /** So no piece of a split contains the separator. */
  lemma SplitPiecesLackSeparator(s: string, sep: string)
    requires sep != ""
    ensures forall k, i :: 0 <= k < |Split(s, sep)| && 0 <= i <= |Split(s, sep)[k]| ==>
              !OccursAt(Split(s, sep)[k], sep, i)
  {
    var r := Split(s, sep);
    SplitLeftmost(s, sep);
    forall k, i | 0 <= k < |r| && 0 <= i <= |r[k]|
      ensures !OccursAt(r[k], sep, i)
    {
      if OccursAt(r[k], sep, i) {
        var joined := Join(r[k..], sep);
        JoinStartsWithFirst(r[k..], sep);
        assert joined[i..i + |sep|] == r[k][i..i + |sep|];
        assert OccursAt(joined, sep, i);
      }
    }
  }

  /** A join of pieces starts with its first piece. */
  lemma JoinStartsWithFirst(pieces: seq<string>, sep: string)
    requires |pieces| >= 1
    ensures |pieces[0]| <= |Join(pieces, sep)| && Join(pieces, sep)[..|pieces[0]|] == pieces[0]
  {
    if |pieces| > 1 {
      assert Join(pieces, sep) == pieces[0] + (sep + Join(pieces[1..], sep));
    }
  }

  /** The separator cannot start inside a piece that lacks its first character. */
  lemma NoOccurrenceInPiece(p: string, t: string, sep: string)
    requires sep != ""
    requires forall j :: 0 <= j < |p| ==> p[j] != sep[0]
    ensures forall k :: 0 <= k < |p| ==> !OccursAt(p + t, sep, k)
  {
    forall k | 0 <= k < |p| ensures !OccursAt(p + t, sep, k) {
      if k + |sep| <= |p + t| {
        assert (p + t)[k..k + |sep|][0] == (p + t)[k] == p[k];
      }
    }
  }

  /** The search finds an occurrence with none before it. */
  lemma IndexOfFinds(s: string, sep: string, i: nat)
    requires i <= |s| && OccursAt(s, sep, i)
    requires forall k :: 0 <= k < i ==> !OccursAt(s, sep, k)
    ensures IndexOf(s, sep, 0) == Some(i)
  {
  }

  /** The search finds nothing when no occurrence can start. */
  lemma IndexOfMisses(s: string, sep: string)
    requires forall k :: 0 <= k <= |s| ==> !OccursAt(s, sep, k)
    ensures IndexOf(s, sep, 0).None?
  {
  }

  /** Splitting text made of pieces that never contain the separator's first
      character gives back exactly those pieces. */
  lemma {:induction false} SplitJoin(pieces: seq<string>, sep: string)
    requires sep != "" && |pieces| >= 1
    requires forall k, j :: 0 <= k < |pieces| && 0 <= j < |pieces[k]| ==> pieces[k][j] != sep[0]
    ensures Split(Join(pieces, sep), sep) == pieces
    decreases |pieces|
  {
    var p := pieces[0];
    var s := Join(pieces, sep);
    if |pieces| == 1 {
      assert s == p + "";
      NoOccurrenceInPiece(p, "", sep);
      IndexOfMisses(s, sep);
    } else {
      var rest := Join(pieces[1..], sep);
      assert s == p + (sep + rest);
      NoOccurrenceInPiece(p, sep + rest, sep);
      assert s[|p|..|p| + |sep|] == sep;
      IndexOfFinds(s, sep, |p|);
      assert s[..|p|] == p;
      assert s[|p| + |sep|..] == rest;
      assert Split(s, sep) == [p] + Split(rest, sep);
      SplitJoin(pieces[1..], sep);
      assert pieces == [p] + pieces[1..];
    }
  }

  /** A marker between two texts that lack the marker's first character
      splits into exactly those two texts. */
  lemma SplitAtMarker(before: string, marker: string, after: string)
    requires marker != ""
    requires forall j :: 0 <= j < |before| ==> before[j] != marker[0]
    requires forall j :: 0 <= j < |after| ==> after[j] != marker[0]
    ensures Split(before + marker + after, marker) == [before, after]
  {
    assert Join([before, after], marker) == before + marker + after;
    SplitJoin([before, after], marker);
  }

  /** Text written as `a` and `c` around `b` between two separators, none
      of them holding the separator's first character, splits into exactly
      `a`, `b` and `c`: a template's argument is read back from between its
      quotes. */
  lemma SplitAroundTwice(a: string, sep: string, b: string, c: string)
    requires sep != ""
    requires forall j :: 0 <= j < |a| ==> a[j] != sep[0]
    requires forall j :: 0 <= j < |b| ==> b[j] != sep[0]
    requires forall j :: 0 <= j < |c| ==> c[j] != sep[0]
    ensures Split(a + sep + b + sep + c, sep) == [a, b, c]
  {
    var pieces := [a, b, c];
    var tail := pieces[1..];
    assert tail[1..] == [c];
    assert Join(tail, sep) == b + sep + c;
    assert Join(pieces, sep) == a + sep + Join(tail, sep);
    assert a + sep + b + sep + c == Join(pieces, sep);
    SplitJoin(pieces, sep);
  }

  predicate IsDigit(c: char)
  {
    '0' <= c <= '9'
  }

  predicate AllDigits(s: string)
  {
    forall j :: 0 <= j < |s| ==> IsDigit(s[j])
  }

  function DigitChar(d: nat): (c: char)
    requires d < 10
    ensures IsDigit(c)
  {
    ('0' as int + d) as char
  }

  /** The value of a string of decimal digits, most significant first. */
  function DecimalValue(s: string): nat
    requires AllDigits(s)
    decreases |s|
  {
    if s == [] then 0
    else 10 * DecimalValue(s[..|s| - 1]) + (s[|s| - 1] as int - '0' as int)
  }

  /** The shortest decimal rendering of `n`, as a template literal prints it. */
  function DecimalString(n: nat): (r: string)
    decreases n
    ensures |r| >= 1 && AllDigits(r)
  {
    if n < 10 then [DigitChar(n)] else DecimalString(n / 10) + [DigitChar(n % 10)]
  }

  /** `${n}` for an integer `n`. */
  function NumberString(n: int): string
  {
    if n < 0 then "-" + DecimalString(-n) else DecimalString(n)
  }

  /** A rendered number is a minus sign or digits, character by character. */
  lemma NumberStringChars(n: int)
    ensures forall j :: 0 <= j < |NumberString(n)| ==> NumberString(n)[j] == '-' || IsDigit(NumberString(n)[j])
  {
    if n < 0 {
      var digits := DecimalString(-n);
      assert NumberString(n) == "-" + digits;
      forall j | 1 <= j < |NumberString(n)|
        ensures IsDigit(NumberString(n)[j])
      {
        assert NumberString(n)[j] == digits[j - 1];
      }
    }
  }

  /** Reading back a rendered number gives the number. */
  lemma {:induction false} DecimalRoundTrip(n: nat)
    ensures DecimalValue(DecimalString(n)) == n
    decreases n
  {
    if n >= 10 {
      var s := DecimalString(n);
      DecimalRoundTrip(n / 10);
      assert s[..|s| - 1] == DecimalString(n / 10);
    }
  }

  /** The model's view of a JavaScript number produced by `+text`:
      a non-negative integer, or a value it does not evaluate. */
  datatype NumberValue = Number(value: nat) | NotANumber

  /** Unary `+` applied to a split piece: `+undefined` is NaN, `+""` is 0,
      decimal digits give their value; every other text is NotANumber. */
  function UnaryPlus(text: Option<string>): (r: NumberValue)
    ensures text.None? ==> r == NotANumber
    ensures text == Some("") ==> r == Number(0)
  {
    match text
    case None => NotANumber
    case Some(s) => if AllDigits(s) then Number(DecimalValue(s)) else NotANumber
  }

  /** `x * k` for a number that may be NaN. */
  function Times(x: NumberValue, k: nat): NumberValue
  {
    match x
    case Number(v) => Number(v * k)
    case NotANumber => NotANumber
  }

  /** `+` reads back every rendered non-negative integer. */
  lemma UnaryPlusOfDecimal(n: nat)
    ensures UnaryPlus(Some(DecimalString(n))) == Number(n)
  {
    DecimalRoundTrip(n);
  }
}
