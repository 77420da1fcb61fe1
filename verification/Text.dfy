/** The string operations the operator uses: joining and splitting on a one-character
    delimiter (`strings.Join`, and the split its readers apply) and decimal numerals
    (`strconv.Itoa`, and the parse the JVM applies). */
module Text {
  import opened Outcomes

  function Join(parts: seq<string>, delimiter: char): string {
    if |parts| == 0 then ""
    else if |parts| == 1 then parts[0]
    else parts[0] + [delimiter] + Join(parts[1..], delimiter)
  }

  lemma JoinFew(x: string, y: string, z: string, delimiter: char)
    ensures Join([x, y], delimiter) == x + [delimiter] + y
    ensures Join([x, y, z], delimiter) == x + [delimiter] + (y + [delimiter] + z)
  {
    assert [x, y][1..] == [y] && [x, y, z][1..] == [y, z] && [y, z][1..] == [z];
    assert Join([y, z], delimiter) == y + [delimiter] + z;
  }

  function Split(s: string, delimiter: char): (parts: seq<string>)
    ensures |parts| >= 1
    ensures forall p <- parts :: delimiter !in p
  {
    if s == "" then [""]
    else
      var rest := Split(s[1..], delimiter);
      if s[0] == delimiter then [""] + rest
      else [[s[0]] + rest[0]] + rest[1..]
  }

  lemma {:induction false} SplitToken(token: string, delimiter: char)
    requires delimiter !in token
    ensures Split(token, delimiter) == [token]
  {
    if token != "" {
      SplitToken(token[1..], delimiter);
      assert token == [token[0]] + token[1..];
    }
  }

  lemma {:induction false} SplitAfterToken(token: string, delimiter: char, rest: string)
    requires delimiter !in token
    ensures Split(token + [delimiter] + rest, delimiter) == [token] + Split(rest, delimiter)
  {
    var s := token + [delimiter] + rest;
    if token == "" {
      assert s[1..] == rest;
    } else {
      assert s[1..] == token[1..] + [delimiter] + rest;
      SplitAfterToken(token[1..], delimiter, rest);
      assert token == [token[0]] + token[1..];
    }
  }

  lemma {:induction false} SplitOfJoin(parts: seq<string>, delimiter: char)
    requires parts != []
    requires forall p <- parts :: delimiter !in p
    ensures Split(Join(parts, delimiter), delimiter) == parts
  {
    if |parts| == 1 {
      SplitToken(parts[0], delimiter);
      assert parts == [parts[0]];
    } else {
      SplitOfJoin(parts[1..], delimiter);
      SplitAfterToken(parts[0], delimiter, Join(parts[1..], delimiter));
      assert parts == [parts[0]] + parts[1..];
    }
  }

  /** Splitting undoes joining exactly when no part holds the delimiter. */
  lemma SplitUndoesJoin(parts: seq<string>, delimiter: char)
    requires parts != []
    ensures Split(Join(parts, delimiter), delimiter) == parts
            <==> forall p <- parts :: delimiter !in p
  {
    if forall p <- parts :: delimiter !in p {
      SplitOfJoin(parts, delimiter);
    }
  }

  function Digit(d: nat): char
    requires d < 10
  {
    (48 + d) as char
  }

  function Decimal(n: nat): string {
    if n < 10 then [Digit(n)] else Decimal(n / 10) + [Digit(n % 10)]
  }

  function Itoa(n: int): string {
    if n < 0 then "-" + Decimal(-n) else Decimal(n)
  }

  predicate AllDigits(s: string) {
    forall i :: 0 <= i < |s| ==> '0' <= s[i] <= '9'
  }

  function ParseDecimal(s: string): nat
    requires AllDigits(s)
  {
    if s == "" then 0
    else 10 * ParseDecimal(s[..|s| - 1]) + (s[|s| - 1] as int - 48)
  }

  function ParseInt(s: string): Option<int> {
    if s != "" && AllDigits(s) then Some(ParseDecimal(s))
    else if |s| > 1 && s[0] == '-' && AllDigits(s[1..]) then (var n: int := ParseDecimal(s[1..]); Some(-n))
    else None
  }

  lemma ParseOfItoa(n: int)
    ensures ParseInt(Itoa(n)) == Some(n)
    ensures ':' !in Itoa(n)
  {
    if n < 0 {
      ParseOfDecimal(-n);
      assert Itoa(n)[1..] == Decimal(-n);
      assert !AllDigits(Itoa(n)) by { assert Itoa(n)[0] == '-'; }
    } else {
      ParseOfDecimal(n);
    }
  }

  lemma {:induction false} ParseOfDecimal(n: nat)
    ensures Decimal(n) != "" && AllDigits(Decimal(n))
    ensures ParseDecimal(Decimal(n)) == n
  {
    if n < 10 {
      assert Decimal(n)[..0] == "";
    } else {
      ParseOfDecimal(n / 10);
      assert Decimal(n)[..|Decimal(n)| - 1] == Decimal(n / 10);
    }
  }
}
