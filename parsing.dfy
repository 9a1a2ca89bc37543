/** The texture-packer string parsers of the asset loader: `"{1,2}"` becomes
    a pair of integers and `"{{1,2},{3,4}}"` a pair of pairs.  Both split on
    `,`, trim every part with Rust's `str::trim` and parse it with
    `str::parse`, panicking on the first part that does not parse. */
module Parsing {
  import opened Common

  /** Rust's `char::is_whitespace`: the Unicode White_Space property. */
  predicate IsWhitespace(c: char) {
    var n := c as int;
    (9 <= n <= 13) || n == 0x20 || n == 0x85 || n == 0xA0 || n == 0x1680
    || (0x2000 <= n <= 0x200A) || n == 0x2028 || n == 0x2029 || n == 0x202F
    || n == 0x205F || n == 0x3000
  }

  predicate IsAscii(c: char) { c as int < 0x80 }

  predicate IsDigit(c: char) { '0' <= c <= '9' }

  predicate AllDigits(s: string) { forall k | 0 <= k < |s| :: IsDigit(s[k]) }

  predicate NoWhitespace(s: string) { forall k | 0 <= k < |s| :: !IsWhitespace(s[k]) }

  /** `trim_start`: drops the longest all-whitespace prefix. */
  function TrimStart(s: string): (r: string)
    ensures |r| <= |s| && r == s[|s| - |r|..]
    ensures forall k | 0 <= k < |s| - |r| :: IsWhitespace(s[k])
    ensures r == [] || !IsWhitespace(r[0])
    decreases |s|
  {
    if |s| > 0 && IsWhitespace(s[0]) then TrimStart(s[1..]) else s
  }

  /** `trim_end`: drops the longest all-whitespace suffix. */
  function TrimEnd(s: string): (r: string)
    ensures |r| <= |s| && r == s[..|r|]
    ensures forall k | |r| <= k < |s| :: IsWhitespace(s[k])
    ensures r == [] || !IsWhitespace(r[|r| - 1])
    decreases |s|
  {
    if |s| > 0 && IsWhitespace(s[|s| - 1]) then TrimEnd(s[..|s| - 1]) else s
  }

  /** `trim`: both ends. */
  function Trim(s: string): string {
    TrimEnd(TrimStart(s))
  }

  /** Trimming leaves a string that neither starts nor ends with whitespace,
      and it removes nothing from a string without whitespace. */
  lemma TrimProperties(s: string)
    ensures Trim(s) == [] || (!IsWhitespace(Trim(s)[0]) && !IsWhitespace(Trim(s)[|Trim(s)| - 1]))
    ensures NoWhitespace(s) ==> Trim(s) == s
  {
    var t := TrimStart(s);
    var r := TrimEnd(t);
    if r != [] {
      assert r[0] == t[0];
    }
  }

  /** `s.split(sep)`: the pieces between the separators; always at least one. */
  function Split(s: string, sep: char): (parts: seq<string>)
    ensures |parts| >= 1
    ensures forall k | 0 <= k < |parts| :: sep !in parts[k]
    ensures Join(parts, sep) == s
    decreases |s|
  {
    if |s| == 0 then [""]
    else
      var rest := Split(s[1..], sep);
      if s[0] == sep then [""] + rest
      else [[s[0]] + rest[0]] + rest[1..]
  }

  /** The pieces glued back together with the separator between them. */
  function Join(parts: seq<string>, sep: char): string
    decreases |parts|
  {
    if |parts| == 0 then ""
    else if |parts| == 1 then parts[0]
    else parts[0] + [sep] + Join(parts[1..], sep)
  }

  /** Splitting a string that has no separator yields the string itself. */
  lemma {:induction false} SplitWithout(s: string, sep: char)
    requires sep !in s
    ensures Split(s, sep) == [s]
    decreases |s|
  {
    if |s| > 0 {
      assert sep !in s[1..];
      SplitWithout(s[1..], sep);
      assert [s[0]] + s[1..] == s;
    }
  }

  /** A piece free of the separator followed by the separator is split off. */
  lemma {:induction false} SplitCons(a: string, sep: char, b: string)
    requires sep !in a
    ensures Split(a + [sep] + b, sep) == [a] + Split(b, sep)
    decreases |a|
  {
    var s := a + [sep] + b;
    if |a| == 0 {
      assert s[1..] == b;
    } else {
      assert s[1..] == a[1..] + [sep] + b;
      assert sep !in a[1..];
      SplitCons(a[1..], sep, b);
      assert [a[0]] + a[1..] == a;
    }
  }

  /** Split undoes Join on pieces that hold no separator. */
  lemma {:induction false} SplitJoin(parts: seq<string>, sep: char)
    requires |parts| >= 1
    requires forall k | 0 <= k < |parts| :: sep !in parts[k]
    ensures Split(Join(parts, sep), sep) == parts
    decreases |parts|
  {
    if |parts| == 1 {
      SplitWithout(parts[0], sep);
    } else {
      SplitJoin(parts[1..], sep);
      SplitCons(parts[0], sep, Join(parts[1..], sep));
      assert [parts[0]] + parts[1..] == parts;
    }
  }

  function DigitValue(c: char): nat
    requires IsDigit(c)
  {
    c as int - '0' as int
  }

  /** The value of a non-empty run of decimal digits, read left to right. */
  function DigitsValue(s: string): nat
    requires AllDigits(s)
    decreases |s|
  {
    if |s| == 0 then 0 else 10 * DigitsValue(s[..|s| - 1]) + DigitValue(s[|s| - 1])
  }

  /** `str::parse::<i32>`: an optional `+` or `-`, then one or more decimal
      digits, whose value must fit in 32 bits. */
  function ParseI32(s: string): (r: Option<i32>)
    ensures r.Some? ==> |s| > 0 && (IsDigit(s[0]) || s[0] == '+' || s[0] == '-')
    ensures r.Some? ==> NoWhitespace(s)
  {
    if |s| == 0 then None
    else if (s[0] == '+' || s[0] == '-') && |s| == 1 then None
    else
      var digits := if s[0] == '+' || s[0] == '-' then s[1..] else s;
      if !AllDigits(digits) then None
      else
        var v: int := if s[0] == '-' then -(DigitsValue(digits) as int) else DigitsValue(digits);
        if I32_MIN <= v <= I32_MAX then Some(v) else None
  }

  function Digit(d: nat): (c: char)
    requires d < 10
    ensures IsDigit(c) && DigitValue(c) == d
  {
    ('0' as int + d) as char
  }

  /** Decimal notation of a natural number, without leading zeros. */
  function ShowNat(n: nat): (s: string)
    ensures |s| >= 1 && AllDigits(s)
    decreases n
  {
    if n < 10 then [Digit(n)] else ShowNat(n / 10) + [Digit(n % 10)]
  }

  /** Decimal notation of an integer, with `-` for negatives. */
  function ShowInt(v: int): (s: string)
    ensures |s| >= 1
  {
    if v < 0 then "-" + ShowNat(-v) else ShowNat(v)
  }

  lemma {:induction false} ShowNatValue(n: nat)
    ensures DigitsValue(ShowNat(n)) == n
    decreases n
  {
    if n >= 10 {
      var s := ShowNat(n);
      assert s[..|s| - 1] == ShowNat(n / 10);
      ShowNatValue(n / 10);
    }
  }

  lemma ShowIntPlain(v: int)
    ensures ',' !in ShowInt(v) && '{' !in ShowInt(v) && '}' !in ShowInt(v)
    ensures NoWhitespace(ShowInt(v))
  {
    var s := ShowInt(v);
    var d := ShowNat(if v < 0 then -v else v);
    assert forall k | 0 <= k < |d| :: IsDigit(d[k]);
    assert forall k | 0 <= k < |s| :: s[k] == '-' || IsDigit(s[k]);
  }

  /** Parsing the decimal notation of any 32-bit integer gives it back. */
  lemma ParseShowInt(v: i32)
    ensures ParseI32(ShowInt(v)) == Some(v)
  {
    var s := ShowInt(v);
    if v < 0 {
      var n: nat := -(v as int);
      var d := ShowNat(n);
      assert s == "-" + d;
      assert s[0] == '-' && |s| >= 2;
      assert s[1..] == d;
      ShowNatValue(n);
      assert DigitsValue(s[1..]) == n;
    } else {
      var d := ShowNat(v);
      assert s == d && IsDigit(d[0]);
      ShowNatValue(v);
    }
  }

  /** `parts.iter().map(|s| parse(s.trim()).unwrap()).collect()`: every part
      parsed after trimming; the first part that does not parse panics. */
  function ParseAll<T>(parts: seq<string>, parse: string -> Option<T>): (r: Result<seq<T>>)
    ensures r.Ok? ==> |r.value| == |parts|
    ensures r.Panic? ==> r.reason.NotANumber? && parse(Trim(r.reason.part)).None?
  {
    ParseFrom(parts, 0, Trimmed(parse))
  }

  /** A part parser that trims first. */
  function Trimmed<T>(parse: string -> Option<T>): string -> Option<T> {
    s => parse(Trim(s))
  }

  /** The parts from index `i` on, each read by `field`, in order. */
  function ParseFrom<T>(parts: seq<string>, i: nat, field: string -> Option<T>): (r: Result<seq<T>>)
    requires i <= |parts|
    ensures r.Ok? ==> |r.value| == |parts| - i
    ensures r.Panic? ==> r.reason.NotANumber? && field(r.reason.part).None?
    decreases |parts| - i
  {
    if i == |parts| then Ok([])
    else
      match field(parts[i])
      case None => Panic(NotANumber(parts[i]))
      case Some(v) =>
        var rest :- ParseFrom(parts, i + 1, field);
        Ok([v] + rest)
  }

  /** Reading from `i` on succeeds exactly when every part from `i` on reads,
      and then holds each part's value in order. */
  lemma {:induction false} ParseFromSpec<T>(parts: seq<string>, i: nat, field: string -> Option<T>)
    requires i <= |parts|
    ensures ParseFrom(parts, i, field).Ok? <==> forall k | i <= k < |parts| :: field(parts[k]).Some?
    ensures ParseFrom(parts, i, field).Ok? ==>
              forall k | i <= k < |parts| :: field(parts[k]) == Some(ParseFrom(parts, i, field).value[k - i])
    decreases |parts| - i
  {
    if i < |parts| && field(parts[i]).Some? {
      ParseFromSpec(parts, i + 1, field);
      var rest := ParseFrom(parts, i + 1, field);
      if rest.Ok? {
        var values := [field(parts[i]).value] + rest.value;
        assert ParseFrom(parts, i, field) == Ok(values);
        assert forall j | 1 <= j < |values| :: values[j] == rest.value[j - 1];
      }
    }
  }

  /** The map-and-unwrap succeeds exactly when every trimmed part parses, and
      then holds each part's value at the part's own index. */
  lemma ParseAllSpec<T>(parts: seq<string>, parse: string -> Option<T>)
    ensures ParseAll(parts, parse).Ok? <==> forall k | 0 <= k < |parts| :: parse(Trim(parts[k])).Some?
    ensures ParseAll(parts, parse).Ok? ==>
              forall k | 0 <= k < |parts| :: parse(Trim(parts[k])) == Some(ParseAll(parts, parse).value[k])
  {
    var field := Trimmed(parse);
    var r := ParseFrom(parts, 0, field);
    ParseFromSpec(parts, 0, field);
    if r.Ok? {
      forall k | 0 <= k < |parts|
        ensures parse(Trim(parts[k])) == Some(r.value[k])
      {
        assert field(parts[k]) == Some(r.value[k - 0]);
      }
    } else {
      var w :| 0 <= w < |parts| && !field(parts[w]).Some?;
      assert !parse(Trim(parts[w])).Some?;
    }
  }

  /** The text between the outer braces: `str[1..str.len()-1]`.  Rust slices
      by bytes, so the slice panics unless both end characters are one-byte
      (ASCII) characters of a string at least two long. */
  function Inner(s: string): (r: Result<string>)
    ensures r.Ok? <==> |s| >= 2 && IsAscii(s[0]) && IsAscii(s[|s| - 1])
    ensures r.Ok? ==> r.value == s[1..|s| - 1]
  {
    if |s| < 2 || !IsAscii(s[0]) || !IsAscii(s[|s| - 1]) then Panic(SliceOutOfRange)
    else Ok(s[1..|s| - 1])
  }

  /** The panics a parser can raise. */
  predicate IsParseFailure(reason: Reason) {
    reason.SliceOutOfRange? || reason.NotANumber? || reason.TooFewParts?
  }

  /** `parse_vec` (and, with a float parser, `parse_vec_f32`): the first two
      comma-separated parts between the outer braces. */
  function ParseVecWith<T>(s: string, parse: string -> Option<T>): (r: Result<(T, T)>)
    ensures r.Panic? ==> IsParseFailure(r.reason)
  {
    var inner :- Inner(s);
    var values :- ParseAll(Split(inner, ','), parse);
    if |values| < 2 then Panic(TooFewParts) else Ok((values[0], values[1]))
  }

  function ParseVec(s: string): Result<(i32, i32)> {
    ParseVecWith(s, ParseI32)
  }

  /** `parse_vec` succeeds exactly when the braces can be sliced off, every
      part parses (the ones after the second too) and there are at least two
      parts; its value is then the first two parts. */
  lemma ParseVecWithSpec<T>(s: string, parse: string -> Option<T>)
    ensures ParseVecWith(s, parse).Ok? <==>
      Inner(s).Ok? && |Split(Inner(s).value, ',')| >= 2 &&
      forall k | 0 <= k < |Split(Inner(s).value, ',')| :: parse(Trim(Split(Inner(s).value, ',')[k])).Some?
    ensures ParseVecWith(s, parse).Ok? ==>
      var parts := Split(Inner(s).value, ',');
      ParseVecWith(s, parse).value == (parse(Trim(parts[0])).value, parse(Trim(parts[1])).value)
    ensures Inner(s).Panic? ==> ParseVecWith(s, parse) == Panic(SliceOutOfRange)
  {
    if Inner(s).Ok? {
      var parts := Split(Inner(s).value, ',');
      var values := ParseAll(parts, parse);
      ParseAllSpec(parts, parse);
      if values.Ok? && |parts| >= 2 {
        assert ParseVecWith(s, parse) == Ok((values.value[0], values.value[1]));
      }
    }
  }

  /** `"{a,b}"` yields (a, b), and so does `"{a,b,c,...}"`: parts after the
      second are parsed but ignored. */
  lemma {:induction false} ParseVecRoundTrip(values: seq<i32>)
    requires |values| >= 2
    ensures ParseVec("{" + Join(seq(|values|, k requires 0 <= k < |values| => ShowInt(values[k])), ',') + "}")
            == Ok((values[0], values[1]))
  {
    var parts := seq(|values|, k requires 0 <= k < |values| => ShowInt(values[k]));
    forall k | 0 <= k < |parts|
      ensures ',' !in parts[k] && ParseI32(Trim(parts[k])) == Some(values[k])
    {
      ShowIntPlain(values[k]);
      TrimProperties(parts[k]);
      ParseShowInt(values[k]);
    }
    var inner := Join(parts, ',');
    var s := "{" + inner + "}";
    assert s[1..|s| - 1] == inner;
    assert Inner(s) == Ok(inner);
    SplitJoin(parts, ',');
    ParseAllOk(parts, ParseI32, values);
  }

  /** When every part parses to the given values, ParseAll yields them. */
  lemma ParseAllOk<T>(parts: seq<string>, parse: string -> Option<T>, values: seq<T>)
    requires |parts| == |values|
    requires forall k | 0 <= k < |parts| :: parse(Trim(parts[k])) == Some(values[k])
    ensures ParseAll(parts, parse) == Ok(values)
  {
    var r := ParseAll(parts, parse);
    ParseAllSpec(parts, parse);
    assert r.Ok?;
    assert forall k | 0 <= k < |parts| :: r.value[k] == values[k];
    assert r.value == values;
  }

  lemma ParseVecPair(a: i32, b: i32)
    ensures ParseVec("{" + ShowInt(a) + "," + ShowInt(b) + "}") == Ok((a, b))
  {
    var values: seq<i32> := [a, b];
    var A, B := ShowInt(a), ShowInt(b);
    var parts := seq(|values|, k requires 0 <= k < |values| => ShowInt(values[k]));
    assert parts == [A, B];
    assert parts[1..] == [B];
    assert Join(parts, ',') == A + [','] + B;
    assert "{" + A + "," + B + "}" == "{" + Join(parts, ',') + "}";
    ParseVecRoundTrip(values);
  }

  /** `parse_vec` panics on a string shorter than two characters, on a part
      that is not an integer, and on fewer than two parts. */
  lemma ParseVecFailures(s: string)
    ensures |s| < 2 ==> ParseVec(s) == Panic(SliceOutOfRange)
    ensures Inner(s).Ok? && |Split(Inner(s).value, ',')| < 2 ==> ParseVec(s).Panic?
    ensures Inner(s).Ok? && (exists k | 0 <= k < |Split(Inner(s).value, ',')| :: ParseI32(Trim(Split(Inner(s).value, ',')[k])).None?)
            ==> ParseVec(s).Panic? && ParseVec(s).reason.NotANumber?
  {
    if Inner(s).Ok? {
      var parts := Split(Inner(s).value, ',');
      var values := ParseAll(parts, ParseI32);
      if values.Panic? {
        assert ParseVec(s) == Panic(values.reason);
      } else {
        ParseAllSpec(parts, ParseI32);
        if |parts| < 2 {
          assert ParseVec(s) == Panic(TooFewParts);
        }
      }
    } else {
      assert ParseVec(s) == Panic(SliceOutOfRange);
    }
  }

  /** `str.replace("{", "").replace("}", "")`. */
  function RemoveBraces(s: string): (r: string)
    ensures '{' !in r && '}' !in r
    ensures |r| <= |s|
    decreases |s|
  {
    if |s| == 0 then ""
    else (if s[0] == '{' || s[0] == '}' then "" else [s[0]]) + RemoveBraces(s[1..])
  }

  /** A single character is deleted exactly when it is a brace. With
      `RemoveBracesAppend` this fixes brace removal on every string. */
  lemma RemoveBracesChar(c: char)
    ensures RemoveBraces([c]) == if c == '{' || c == '}' then "" else [c]
  {
    assert [c][1..] == "";
  }

  /** Removing braces works piece by piece: it distributes over concatenation. */
  lemma {:induction false} RemoveBracesAppend(a: string, b: string)
    ensures RemoveBraces(a + b) == RemoveBraces(a) + RemoveBraces(b)
    decreases |a|
  {
    if |a| > 0 {
      assert (a + b)[1..] == a[1..] + b;
      RemoveBracesAppend(a[1..], b);
    } else {
      assert a + b == b;
    }
  }

  /** Removing braces keeps a string without them. */
  lemma {:induction false} RemoveBracesKeeps(s: string)
    requires '{' !in s && '}' !in s
    ensures RemoveBraces(s) == s
    decreases |s|
  {
    if |s| > 0 {
      assert '{' !in s[1..] && '}' !in s[1..];
      RemoveBracesKeeps(s[1..]);
      assert [s[0]] + s[1..] == s;
    }
  }

  /** `parse_rect_vecs`: every brace anywhere is deleted, then the first four
      comma-separated integers are ((a0, a1), (a2, a3)). */
  function ParseRectVecs(s: string): (r: Result<((i32, i32), (i32, i32))>)
    ensures r.Panic? ==> IsParseFailure(r.reason)
  {
    var values :- ParseAll(Split(RemoveBraces(s), ','), ParseI32);
    if |values| < 4 then Panic(TooFewParts)
    else Ok(((values[0], values[1]), (values[2], values[3])))
  }

  /** `parse_rect_vecs` succeeds exactly when every brace-free part parses
      and there are at least four of them; the value is the first four. */
  lemma ParseRectVecsSpec(s: string)
    ensures var parts := Split(RemoveBraces(s), ',');
      ParseRectVecs(s).Ok? <==>
        |parts| >= 4 && forall k | 0 <= k < |parts| :: ParseI32(Trim(parts[k])).Some?
    ensures var parts := Split(RemoveBraces(s), ',');
      ParseRectVecs(s).Ok? ==>
        ParseRectVecs(s).value == ((ParseI32(Trim(parts[0])).value, ParseI32(Trim(parts[1])).value),
                                   (ParseI32(Trim(parts[2])).value, ParseI32(Trim(parts[3])).value))
  {
    var parts := Split(RemoveBraces(s), ',');
    var values := ParseAll(parts, ParseI32);
    ParseAllSpec(parts, ParseI32);
    if values.Ok? && |parts| >= 4 {
      assert ParseRectVecs(s) == Ok(((values.value[0], values.value[1]), (values.value[2], values.value[3])));
    }
  }

  /** The texture packer's `"{{l,t},{w,h}}"` yields ((l, t), (w, h)). */
  lemma ParseRectRoundTrip(l: i32, t: i32, w: i32, h: i32)
    ensures ParseRectVecs("{{" + ShowInt(l) + "," + ShowInt(t) + "},{" + ShowInt(w) + "," + ShowInt(h) + "}}")
            == Ok(((l, t), (w, h)))
  {
    ShowIntPlain(l); ShowIntPlain(t); ShowIntPlain(w); ShowIntPlain(h);
    var L, T, W, H := ShowInt(l), ShowInt(t), ShowInt(w), ShowInt(h);
    var parts := [L, T, W, H];
    RectTextBraces(L, T, W, H);
    SplitJoin(parts, ',');
    var values: seq<i32> := [l, t, w, h];
    forall k | 0 <= k < 4
      ensures ParseI32(Trim(parts[k])) == Some(values[k])
    {
      TrimProperties(parts[k]);
      ParseShowInt(values[k]);
    }
    ParseAllOk(parts, ParseI32, values);
  }

  lemma RectTextBraces(L: string, T: string, W: string, H: string)
    requires '{' !in L && '}' !in L && '{' !in T && '}' !in T
    requires '{' !in W && '}' !in W && '{' !in H && '}' !in H
    ensures RemoveBraces("{{" + L + "," + T + "},{" + W + "," + H + "}}") == Join([L, T, W, H], ',')
  {
    var s1 := "{{" + L;
    var s2 := s1 + ",";
    var s3 := s2 + T;
    var s4 := s3 + "},{";
    var s5 := s4 + W;
    var s6 := s5 + ",";
    var s7 := s6 + H;
    var r1 := L;
    var r3 := r1 + [','] + T;
    var r5 := r3 + [','] + W;
    var r7 := r5 + [','] + H;
    assert RemoveBraces(s1) == r1 by {
      RemoveBracesAppend("{{", L); RemoveBracesKeeps(L);
      assert RemoveBraces("{{") == "";
    }
    assert RemoveBraces(s3) == r3 by {
      RemoveBracesAppend(s1, ","); RemoveBracesAppend(s2, T); RemoveBracesKeeps(T);
      assert RemoveBraces(",") == ",";
    }
    assert RemoveBraces(s5) == r5 by {
      RemoveBracesAppend(s3, "},{"); RemoveBracesAppend(s4, W); RemoveBracesKeeps(W);
      assert RemoveBraces("},{") == ",";
    }
    assert RemoveBraces(s7) == r7 by {
      RemoveBracesAppend(s5, ","); RemoveBracesAppend(s6, H); RemoveBracesKeeps(H);
      assert RemoveBraces(",") == ",";
    }
    assert RemoveBraces(s7 + "}}") == r7 by {
      RemoveBracesAppend(s7, "}}");
      assert RemoveBraces("}}") == "";
    }
    JoinFour(L, T, W, H);
  }

  lemma JoinFour(L: string, T: string, W: string, H: string)
    ensures Join([L, T, W, H], ',') == L + [','] + T + [','] + W + [','] + H
  {
    var parts := [L, T, W, H];
    assert parts[1..] == [T, W, H];
    assert [T, W, H][1..] == [W, H];
    assert [W, H][1..] == [H];
    assert Join([W, H], ',') == W + [','] + H;
    assert Join([T, W, H], ',') == T + [','] + (W + [','] + H);
    assert Join(parts, ',') == L + [','] + (T + [','] + (W + [','] + H));
  }
}
