/**
  Shared vocabulary of the model: optional values, results carrying the
  errors the Python code raises, the scalars found in feature properties and
  spreadsheet cells, and the few string operations (Python 2 `str()`,
  `str.capitalize()`, `'sep'.join(...)`, `startswith`, case-insensitive
  containment) the core relies on.
 */
module Base {

  datatype Option<+T> = None | Some(value: T)

  /** The exceptions raised by the modelled code, one constructor per cause. */
  datatype Error =
    | AmbiguousAxis(count: nat)          // "Cannot query more than one dimension at the moment, got {count}"
    | UnknownAxis(axis: string)          // KeyError on the DIM table
    | MissingProperty(name: string)      // KeyError on a feature's properties
    | BadOrderValue(name: string)        // int(...) of an order property that is not an integer
    | MissingKey(key: string)            // KeyError raised by `del`
    | EmptySheet                         // IndexError reading row 0 / column 0 of a sheet
    | MultipleObjects(name: string)      // MultipleObjectsReturned from `objects.get`

  datatype Result<+T> = Ok(value: T) | Err(error: Error) {
    predicate IsFailure() { Err? }

    function PropagateFailure<U>(): Result<U>
      requires Err?
    {
      Err(error)
    }

    function Extract(): T
      requires Ok?
    {
      value
    }
  }

  /**
    A scalar as it arrives from the feature server or a spreadsheet cell.
    `Other` stands for every scalar the model treats as opaque (floats,
    booleans, ...), carried together with its Python `str()` rendering.
   */
  datatype Scalar = Null | Int(i: int) | Str(s: string) | Other(text: string)

  /** Decimal rendering of a natural number, most significant digit first. */
  function NatToText(n: nat): (r: string)
    ensures |r| > 0
    ensures forall k :: 0 <= k < |r| ==> '0' <= r[k] <= '9'
    decreases n
  {
    var d := [('0' as int + n % 10) as char];
    if n < 10 then d else NatToText(n / 10) + d
  }

  /** Python's `str()` of an integer. */
  function IntToText(n: int): string
  {
    if n < 0 then "-" + NatToText(-n) else NatToText(n)
  }

  /** Python's `str()` of a scalar (`str(None)` is `"None"`). */
  function ToText(v: Scalar): string
  {
    match v
    case Null => "None"
    case Int(i) => IntToText(i)
    case Str(s) => s
    case Other(t) => t
  }

  predicate IsLowerAscii(c: char) { 'a' <= c <= 'z' }
  predicate IsUpperAscii(c: char) { 'A' <= c <= 'Z' }

  function UpperChar(c: char): char
  {
    if IsLowerAscii(c) then (c as int - 32) as char else c
  }

  function LowerChar(c: char): char
  {
    if IsUpperAscii(c) then (c as int + 32) as char else c
  }

  function Upper(s: string): (r: string)
    ensures |r| == |s|
    ensures forall k :: 0 <= k < |s| ==> r[k] == UpperChar(s[k])
  {
    if |s| == 0 then "" else [UpperChar(s[0])] + Upper(s[1..])
  }

  function Lower(s: string): (r: string)
    ensures |r| == |s|
    ensures forall k :: 0 <= k < |s| ==> r[k] == LowerChar(s[k])
  {
    if |s| == 0 then "" else [LowerChar(s[0])] + Lower(s[1..])
  }

  /** Python 2 `str.capitalize()`: first character upper-cased, the rest lower-cased. */
  function Capitalize(s: string): (r: string)
    ensures |r| == |s|
    ensures |s| > 0 ==> r[0] == UpperChar(s[0])
    ensures forall k :: 1 <= k < |s| ==> r[k] == LowerChar(s[k])
  {
    if |s| == 0 then "" else [UpperChar(s[0])] + Lower(s[1..])
  }

  /** Capitalising leaves a string with no letters unchanged (digits, signs, ...). */
  lemma CapitalizeNoLetters(s: string)
    requires forall k :: 0 <= k < |s| ==> !IsLowerAscii(s[k]) && !IsUpperAscii(s[k])
    ensures Capitalize(s) == s
  {
  }

  lemma CapitalizeIntText(n: int)
    ensures Capitalize(IntToText(n)) == IntToText(n)
  {
    var t := IntToText(n);
    if n < 0 {
      assert t == "-" + NatToText(-n);
      assert forall k :: 1 <= k < |t| ==> t[k] == NatToText(-n)[k - 1];
    }
    CapitalizeNoLetters(t);
  }

  /** `sep.join(parts)`. */
  function Join(sep: string, parts: seq<string>): string
  {
    if |parts| == 0 then ""
    else if |parts| == 1 then parts[0]
    else parts[0] + sep + Join(sep, parts[1..])
  }

  /** Joining a concatenation puts one separator between the two joined halves. */
  lemma {:induction false} JoinAppend(sep: string, a: seq<string>, b: seq<string>)
    requires |a| > 0 && |b| > 0
    ensures Join(sep, a + b) == Join(sep, a) + sep + Join(sep, b)
  {
    if |a| == 1 {
      assert (a + b)[1..] == b;
    } else {
      assert (a + b)[1..] == a[1..] + b;
      JoinAppend(sep, a[1..], b);
    }
  }

  /** `s.split(sep)` for a one-character separator: the pieces between separators, empty ones included. */
  function Split(s: string, sep: char): (r: seq<string>)
    ensures |r| > 0
    ensures forall i :: 0 <= i < |r| ==> sep !in r[i]
    decreases |s|
  {
    if |s| == 0 then [""]
    else
      var rest := Split(s[1..], sep);
      if s[0] == sep then [""] + rest
      else
        assert forall i :: 1 <= i < |rest| ==> rest[1..][i - 1] == rest[i];
        [[s[0]] + rest[0]] + rest[1..]
  }

  /** Text without the separator, then the separator: the text is the first piece. */
  lemma {:induction false} SplitPiece(a: string, sep: char, b: string)
    requires sep !in a
    ensures Split(a + [sep] + b, sep) == [a] + Split(b, sep)
    decreases |a|
  {
    if |a| == 0 {
      assert a + [sep] + b == [sep] + b;
      assert ([sep] + b)[1..] == b;
    } else {
      assert (a + [sep] + b)[1..] == a[1..] + [sep] + b;
      SplitPiece(a[1..], sep, b);
      assert [a[0]] + a[1..] == a;
    }
  }

  /** Text without the separator is one piece. */
  lemma {:induction false} SplitWhole(a: string, sep: char)
    requires sep !in a
    ensures Split(a, sep) == [a]
    decreases |a|
  {
    if |a| > 0 {
      SplitWhole(a[1..], sep);
      assert [a[0]] + a[1..] == a;
    }
  }

  /** Splitting undoes joining when no part holds the separator. */
  lemma {:induction false} SplitJoin(parts: seq<string>, sep: char)
    requires |parts| > 0
    requires forall i :: 0 <= i < |parts| ==> sep !in parts[i]
    ensures Split(Join([sep], parts), sep) == parts
  {
    if |parts| == 1 {
      SplitWhole(parts[0], sep);
    } else {
      assert forall i :: 0 <= i < |parts| - 1 ==> parts[1..][i] == parts[i + 1];
      SplitJoin(parts[1..], sep);
      SplitPiece(parts[0], sep, Join([sep], parts[1..]));
      assert [parts[0]] + parts[1..] == parts;
    }
  }

  predicate StartsWith(s: string, prefix: string)
  {
    |prefix| <= |s| && s[..|prefix|] == prefix
  }

  /** `needle in hay` for strings. */
  predicate Contains(hay: string, needle: string)
    decreases |hay|
  {
    StartsWith(hay, needle) || (|hay| > 0 && Contains(hay[1..], needle))
  }

  /** Django's `icontains`: containment after upper-casing both sides. */
  predicate ContainsIgnoreCase(hay: string, needle: string)
  {
    Contains(Upper(hay), Upper(needle))
  }

  /** `needle` occurs in `hay` starting at index `i`. */
  predicate OccursAt(hay: string, needle: string, i: int)
  {
    0 <= i <= |hay| - |needle| && hay[i..i + |needle|] == needle
  }

  /** The recursive search agrees with the positional definition of containment. */
  lemma {:induction false} ContainsAt(hay: string, needle: string)
    ensures Contains(hay, needle) <==> exists i :: OccursAt(hay, needle, i)
    decreases |hay|
  {
    if StartsWith(hay, needle) {
      assert OccursAt(hay, needle, 0);
    } else if |hay| > 0 {
      ContainsAt(hay[1..], needle);
      if Contains(hay[1..], needle) {
        var i :| OccursAt(hay[1..], needle, i);
        assert hay[1..][i..i + |needle|] == hay[i + 1..i + 1 + |needle|];
        assert OccursAt(hay, needle, i + 1);
      }
      assert !OccursAt(hay, needle, 0) by {
        if |needle| <= |hay| {
          assert hay[..|needle|] == hay[0..0 + |needle|];
        }
      }
      if exists i :: OccursAt(hay, needle, i) {
        var i :| OccursAt(hay, needle, i);
        assert hay[1..][i - 1..i - 1 + |needle|] == hay[i..i + |needle|];
        assert OccursAt(hay[1..], needle, i - 1);
      }
    } else {
      assert |needle| > 0;
    }
  }

  /** Number of occurrences of `x` in `s`. */
  function Count<T(==)>(s: seq<T>, x: T): (r: nat)
    ensures r <= |s|
    ensures r == 0 <==> x !in s
  {
    if |s| == 0 then 0 else (if s[0] == x then 1 else 0) + Count(s[1..], x)
  }

  lemma SplitHead<T>(a: seq<T>, b: seq<T>)
    requires |a| > 0
    ensures (a + b)[0] == a[0] && (a + b)[1..] == a[1..] + b
  {
  }

  lemma Regroup<T>(x: seq<T>, y: seq<T>, z: seq<T>)
    ensures x + (y + z) == (x + y) + z
  {
  }

  /** `Count` is the multiplicity in the list's multiset. */
  lemma {:induction false} CountMultiplicity<T>(s: seq<T>, x: T)
    ensures Count(s, x) == multiset(s)[x]
  {
    if |s| > 0 {
      assert s == [s[0]] + s[1..];
      CountMultiplicity(s[1..], x);
    }
  }

  /** Indexing past the head: position `i` of `s` is position `i - 1` of its tail. */
  lemma TailIndex<T>(s: seq<T>, i: int)
    requires 0 < i < |s|
    ensures s[i] == s[1..][i - 1]
  {
  }

  /** Indexing past a consed head. */
  lemma ConsIndex<T>(x: T, rest: seq<T>, i: int)
    requires 0 < i <= |rest|
    ensures ([x] + rest)[i] == rest[i - 1]
  {
  }

  /** A non-empty sequence is its prefix followed by its last element. */
  lemma InitLast<T>(s: seq<T>)
    requires |s| > 0
    ensures s == s[..|s| - 1] + [s[|s| - 1]]
  {
  }

  /** Indexing a concatenation. */
  lemma AppendIndex<T>(a: seq<T>, b: seq<T>, i: int)
    requires 0 <= i < |a| + |b|
    ensures i < |a| ==> (a + b)[i] == a[i]
    ensures i >= |a| ==> (a + b)[i] == b[i - |a|]
  {
  }
}
