/** Shared vocabulary of the backend model: failure-carrying results, the
    dynamically typed cells of a query row, and the few string operations the
    repositories and handlers rely on (substring search, ASCII lower-casing,
    decimal formatting as done by `%d`). */
module Common {

  datatype Option<+T> = None | Some(value: T)

  /** A Go `(value, error)` pair where exactly one side is meaningful. */
  datatype Result<+R, +E> = Success(value: R) | Failure(error: E)

  /** One cell of a row returned by the store: the client hands back
      `interface{}` values, of which the repositories expect `int64` and
      `string`. */
  datatype Cell = IntCell(i: int) | StrCell(s: string) | NullCell

  type Row = seq<Cell>

  /** Error texts produced by the repository and database layers. */
  const NoRowsFound := "no rows found"
  const InvalidRowData := "invalid row data"
  const PostNotFound := "post not found"
  /** Where the source's type assertion `row[i].(int64)` would panic, the
      model fails with this text instead. */
  const TypeMismatch := "unexpected cell type"

  predicate StartsWith(s: string, prefix: string)
  {
    |prefix| <= |s| && s[..|prefix|] == prefix
  }

  /** `strings.Contains(s, sub)`: `sub` occurs at some position of `s`. */
  predicate Contains(s: string, sub: string)
    decreases |s|
  {
    StartsWith(s, sub) || (s != [] && Contains(s[1..], sub))
  }

  /** An occurrence in a suffix of `s` is an occurrence in `s`. */
  lemma {:induction false} ContainsInSuffix(s: string, k: nat, sub: string)
    requires k <= |s|
    requires Contains(s[k..], sub)
    ensures Contains(s, sub)
    decreases k
  {
    if k > 0 {
      assert s[1..][k - 1..] == s[k..];
      ContainsInSuffix(s[1..], k - 1, sub);
    }
  }

  /** Whoever contains `x + y` contains `y`: in particular every text that
      contains "already exists" contains "exists". */
  lemma {:induction false} ContainsTail(s: string, x: string, y: string)
    requires Contains(s, x + y)
    ensures Contains(s, y)
    decreases |s|
  {
    if StartsWith(s, x + y) {
      assert s[..|x + y|] == x + y;
      assert s[|x|..][..|y|] == (x + y)[|x|..] == y;
      assert StartsWith(s[|x|..], y);
      ContainsInSuffix(s, |x|, y);
    } else {
      ContainsTail(s[1..], x, y);
    }
  }

  function LowerChar(c: char): char
  {
    if 'A' <= c <= 'Z' then (c as int + 32) as char else c
  }

  /** `strings.ToLower`, restricted to ASCII letters. */
  function Lower(s: string): (r: string)
    ensures |r| == |s|
    ensures forall i :: 0 <= i < |s| ==> r[i] == LowerChar(s[i])
  {
    seq(|s|, i requires 0 <= i < |s| => LowerChar(s[i]))
  }

  function Digit(d: nat): char
    requires d < 10
  {
    "0123456789"[d]
  }

  function NatDecimal(n: nat): string
    decreases n
  {
    if n < 10 then [Digit(n)] else NatDecimal(n / 10) + [Digit(n % 10)]
  }

  /** The text `fmt.Sprintf("%d", n)` gives for an integer. */
  function Decimal(n: int): string
  {
    if n < 0 then "-" + NatDecimal(-n) else NatDecimal(n)
  }

  lemma {:induction false} NatDecimalHasNoQuote(n: nat)
    ensures '\'' !in NatDecimal(n)
    decreases n
  {
    if n >= 10 {
      NatDecimalHasNoQuote(n / 10);
    }
  }

  /** A number interpolated with `%d` never contains a quote, so it cannot
      open or close a string literal. */
  lemma DecimalHasNoQuote(n: int)
    ensures '\'' !in Decimal(n)
  {
    if n < 0 {
      NatDecimalHasNoQuote(-n);
    } else {
      NatDecimalHasNoQuote(n);
    }
  }
}
