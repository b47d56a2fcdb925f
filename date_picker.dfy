/**
 * The date display of src/components/DatePicker.tsx: the input's
 * `YYYY-MM-DD` value shown as `DD/MM/YYYY`, with a placeholder when empty.
 */
module DatePicker {
  import opened Text

  const Placeholder: string := "dd/mm/yyyy"

  /** A destructured element of the split: a missing one is `undefined`, which the template prints as such. */
  function Part(parts: seq<string>, i: nat): string
  {
    if i < |parts| then parts[i] else "undefined"
  }

  /** The `useEffect` conversion: `[year, month, day] = value.split('-')`, then `${day}/${month}/${year}`. */
  function DisplayValue(value: string): (r: string)
    ensures value == "" ==> r == Placeholder
  {
    if value == "" then Placeholder
    else
      var parts := Split(value, '-');
      Part(parts, 2) + "/" + Part(parts, 1) + "/" + Part(parts, 0)
  }

  /** `Y-M-D` is displayed as `D/M/Y`. */
  lemma DisplayReordersDate(y: string, m: string, d: string)
    requires '-' !in y && '-' !in m && '-' !in d
    ensures DisplayValue(y + "-" + m + "-" + d) == d + "/" + m + "/" + y
  {
    assert y + "-" + m + "-" + d == y + ['-'] + (m + ['-'] + d);
    SplitAfterPiece(y, m + "-" + d, '-');
    SplitAfterPiece(m, d, '-');
    SplitWithout(d, '-');
  }

  /** A value with no dash shows as the year, with `undefined` for month and day. */
  lemma DisplayWithoutDash(value: string)
    requires value != "" && '-' !in value
    ensures DisplayValue(value) == "undefined/undefined/" + value
  {
    SplitWithout(value, '-');
  }

  /** Parts beyond the third are dropped: the display is the same as for the first three alone. */
  lemma DisplayIgnoresExtraParts(y: string, m: string, d: string, extra: string)
    requires '-' !in y && '-' !in m && '-' !in d
    ensures DisplayValue(y + "-" + m + "-" + d + "-" + extra) == d + "/" + m + "/" + y
  {
    var value := y + "-" + m + "-" + d + "-" + extra;
    assert value == y + [ '-' ] + (m + [ '-' ] + (d + [ '-' ] + extra));
    SplitAfterPiece(y, m + "-" + d + "-" + extra, '-');
    assert m + "-" + d + "-" + extra == m + [ '-' ] + (d + [ '-' ] + extra);
    SplitAfterPiece(m, d + "-" + extra, '-');
    SplitAfterPiece(d, extra, '-');
  }

  /** A value without `/` is always displayed with exactly two `/` separators. */
  lemma DisplayHasTwoSlashes(value: string)
    requires '/' !in value
    ensures Count(DisplayValue(value), '/') == 2
  {
    if value == "" {
      assert Count(Placeholder, '/') == 2;
    } else {
      var parts := Split(value, '-');
      forall i | 0 <= i < 3
        ensures '/' !in Part(parts, i)
      {
        if i < |parts| {
          NoSlashInParts(value, i);
        }
      }
      TwoSlashes(Part(parts, 2), Part(parts, 1), Part(parts, 0));
    }
  }

  lemma TwoSlashes(a: string, b: string, c: string)
    requires '/' !in a && '/' !in b && '/' !in c
    ensures Count(a + "/" + b + "/" + c, '/') == 2
  {
    CountConcat(a + "/" + b, "/" + c, '/');
    CountConcat(a, "/" + b, '/');
    CountConcat("/", b, '/');
    CountConcat("/", c, '/');
    CountAbsent(a, '/');
    CountAbsent(b, '/');
    CountAbsent(c, '/');
    assert a + "/" + b + "/" + c == (a + ("/" + b)) + ("/" + c);
    assert a + "/" + b == a + ("/" + b);
  }

  /** The pieces of a split hold only characters of the string. */
  lemma NoSlashInParts(value: string, i: nat)
    requires '/' !in value && i < |Split(value, '-')|
    ensures '/' !in Split(value, '-')[i]
  {
    JoinSplit(value, '-');
    JoinHasParts(['-'], Split(value, '-'), i);
  }

  lemma {:induction false} JoinHasParts(sep: string, parts: seq<string>, i: nat)
    requires i < |parts|
    ensures forall c :: c in parts[i] ==> c in Join(sep, parts)
  {
    if |parts| > 1 {
      if i > 0 {
        JoinHasParts(sep, parts[1..], i - 1);
      }
    }
  }

  /** `handleDateChange`: the input's raw value is forwarded to `onChange` unchanged. */
  function HandleDateChange(inputValue: string): (forwarded: string)
    ensures forwarded == inputValue
  {
    inputValue
  }
}
