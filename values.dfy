/** The Python values that entity attributes and stored records hold, and how `repr` renders them. */
module Values {
  import opened OrderedDicts
  import opened Numerals
  import opened Timestamps
  import opened Texts

  datatype Value =
    | Str(s: string)
    | Int(i: int)
    | Bool(b: bool)
    | Float(repr: string)     // a float, known only by the text repr() gives it
    | NoneValue
    | Time(t: Timestamp)      // a datetime
    | Compound(repr: string)  // a list, dict, bound method or other object, known only by its repr

  /** `isinstance(v, (str, int, float))`; `bool` is a subclass of `int`, so it counts too. */
  predicate IsSimple(v: Value)
  {
    v.Str? || v.Int? || v.Bool? || v.Float?
  }

  /**
   * The characters below U+00FF that `str.isprintable()` refuses: the C0 controls, DEL, the C1
   * controls, the no-break space and the soft hyphen.
   */
  predicate Unprintable(c: char)
  {
    c < ' ' || ('\U{007f}' <= c <= '\U{00a0}') || c == '\U{00ad}'
  }

  /**
   * Backslash and the chosen quote are escaped; tab, newline and carriage return take their
   * letter escapes and every other unprintable character its two-digit `\xNN` form.
   */
  function Escape(s: string, quote: char): string
  {
    if s == [] then ""
    else
      var c := s[0];
      var e := if c == quote || c == '\\' then ['\\', c]
               else if c == '\n' then "\\n" else if c == '\t' then "\\t" else if c == '\r' then "\\r"
               else if Unprintable(c) then ['\\', 'x', DigitChar(c as nat / 16), DigitChar(c as nat % 16)]
               else [c];
      e + Escape(s[1..], quote)
  }

  /** `repr(s)` for a `str`: single quotes unless the text holds a single quote and no double quote. */
  function StrRepr(s: string): string
  {
    var q := if '\'' in s && '"' !in s then '"' else '\'';
    [q] + Escape(s, q) + [q]
  }

  /** Text that `repr` shows between plain single quotes. */
  predicate Plain(s: string)
  {
    forall i :: 0 <= i < |s| ==> s[i] != '\'' && s[i] != '"' && s[i] != '\\' && !Unprintable(s[i])
  }

  lemma {:induction false} EscapePlain(s: string, q: char)
    requires Plain(s) && (q == '\'' || q == '"')
    ensures Escape(s, q) == s
  {
    if s != [] {
      EscapePlain(s[1..], q);
    }
  }

  /** An escaped text holds no unprintable character: `repr` of any string prints on one line. */
  lemma {:induction false} EscapePrintable(s: string, q: char)
    requires !Unprintable(q)
    ensures forall i :: 0 <= i < |Escape(s, q)| ==> !Unprintable(Escape(s, q)[i])
  {
    if s != [] {
      EscapePrintable(s[1..], q);
    }
  }

  lemma StrReprPrintable(s: string)
    ensures forall i :: 0 <= i < |StrRepr(s)| ==> !Unprintable(StrRepr(s)[i])
  {
    var q := if '\'' in s && '"' !in s then '"' else '\'';
    EscapePrintable(s, q);
  }

  lemma PlainRepr(s: string)
    requires Plain(s)
    ensures StrRepr(s) == "'" + s + "'"
  {
    EscapePlain(s, '\'');
  }

  function ValueRepr(v: Value): string
  {
    match v
    case Str(s) => StrRepr(s)
    case Int(i) => IntStr(i)
    case Bool(b) => if b then "True" else "False"
    case Float(r) => r
    case NoneValue => "None"
    case Time(t) => DatetimeRepr(t)
    case Compound(r) => r
  }

  function ItemRepr(k: string, v: Value): string
  {
    StrRepr(k) + ": " + ValueRepr(v)
  }

  function Items(d: ODict<Value>): (items: seq<string>)
    ensures |items| == |d.keys|
    ensures forall k :: k in d.vals ==> ItemRepr(k, d.vals[k]) in items
  {
    var items := seq(|d.keys|, i requires 0 <= i < |d.keys| => ItemRepr(d.keys[i], d.vals[d.keys[i]]));
    assert forall k :: k in d.vals ==> ItemRepr(k, d.vals[k]) in items by {
      forall k | k in d.vals ensures ItemRepr(k, d.vals[k]) in items {
        var i :| 0 <= i < |d.keys| && d.keys[i] == k;
        assert items[i] == ItemRepr(k, d.vals[k]);
      }
    }
    items
  }

  /** `repr(d)` (and `str(d)`) for a dictionary of values. */
  function DictRepr(d: ODict<Value>): string
  {
    "{" + Join(Items(d), ", ") + "}"
  }

  /** `repr(xs)` for a list of strings. */
  function ListRepr(xs: seq<string>): string
  {
    "[" + Join(seq(|xs|, i requires 0 <= i < |xs| => StrRepr(xs[i])), ", ") + "]"
  }

  /** Every entry of a dictionary shows up, as `'key': value`, in its rendering. */
  lemma DictReprShowsEntry(d: ODict<Value>, k: string)
    requires k in d.vals
    ensures HasSubstring(DictRepr(d), ItemRepr(k, d.vals[k]))
  {
    var i :| 0 <= i < |d.keys| && d.keys[i] == k;
    var items := Items(d);
    assert items[i] == ItemRepr(k, d.vals[k]);
    BracedHasPart(items, i);
  }

  /** Each part shows up in the braced, comma-separated rendering of the parts. */
  lemma BracedHasPart(items: seq<string>, i: nat)
    requires i < |items|
    ensures HasSubstring("{" + Join(items, ", ") + "}", items[i])
  {
    var joined := Join(items, ", ");
    JoinHasPart(items, ", ", i);
    SubstringOfHead(joined + "}", joined, "}", items[i]);
    SubstringOfPart("{" + joined + "}", "{", joined + "}", items[i]);
  }
}
