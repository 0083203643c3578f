/** `formatValue`: how the detail views print a value of any type. */
module Formatters {
  import opened Text
  import opened Numbers

  /** The values the detail views pass: `null` or `undefined`, a boolean, a
      string, or an integer. */
  datatype Shown = Nullish | Bool(b: bool) | Text(s: string) | Number(n: int)

  const NotAvailable := "N/A"

  /** A decimal text is never blank. */
  lemma DigitsAreNotBlank(n: int)
    ensures !IsBlank(IntToString(n))
  {
    var t := IntToString(n);
    if n >= 0 {
      assert IsDigit(t[0]);
    } else {
      assert t[0] == '-';
    }
    assert !IsSpace(t[0]);
  }

  function FormatValue(v: Shown): (r: string)
    ensures v.Nullish? ==> r == NotAvailable
    ensures v.Bool? ==> r == (if v.b then "Sí" else "No")
    ensures v.Text? && IsBlank(v.s) ==> r == NotAvailable
    ensures v.Text? && !IsBlank(v.s) ==> r == v.s
    ensures v.Number? ==> r == IntToString(v.n)
    ensures !IsBlank(r)
  {
    match v
    case Nullish => assert !IsSpace(NotAvailable[0]); NotAvailable
    case Bool(b) => assert !IsSpace("Sí"[0]) && !IsSpace("No"[0]); if b then "Sí" else "No"
    case Text(s) => assert !IsSpace(NotAvailable[0]); if IsBlank(s) then NotAvailable else s
    case Number(n) => DigitsAreNotBlank(n); IntToString(n)
  }

  /** The printed text stands for nothing exactly when the value is missing
      or blank, or is the text "N/A" itself. */
  lemma NotAvailableOnlyForMissing(v: Shown)
    ensures FormatValue(v) == NotAvailable <==> v.Nullish? || (v.Text? && (IsBlank(v.s) || v.s == NotAvailable))
  {
    if v.Number? {
      var t := IntToString(v.n);
      if v.n >= 0 {
        assert IsDigit(t[0]);
      }
      assert t != NotAvailable by {
        if v.n >= 0 { assert t[0] != 'N'; } else { assert t[0] == '-'; }
      }
    }
  }
}
