/**
 * The wrapper's command line: the `-i` script path, which must not be blank,
 * and the `-args` string, which becomes the child's argument list after
 * trimming whitespace, stripping outer single quotes and splitting on
 * whitespace runs.
 */
module Args {
  import opened Strings

  const Quote: char := '\''

  /** The `-i` value is missing: blank after `TrimSpace`, which is fatal at startup. */
  function InputMissing(input: string): (r: bool)
    ensures r <==> AllIn(input, AsciiSpace)
  {
    TrimSpace(input) == []
  }

  /**
   * The child's argument list built from `-args`: a blank value gives no
   * arguments; otherwise the whitespace-trimmed value loses every leading and
   * trailing `'` and is split into fields.
   */
  function ParseArgs(raw: string): (r: seq<string>)
    ensures forall i :: 0 <= i < |r| ==> IsWord(r[i])
    ensures AllIn(raw, AsciiSpace) ==> r == []
  {
    var trimmed := TrimSpace(raw);
    if trimmed != [] then Fields(Trim(trimmed, {Quote})) else []
  }

  /** The blank-input guard only short-cuts: the list is always the fields of the stripped value. */
  lemma ParseArgsIsFieldsOfStripped(raw: string)
    ensures ParseArgs(raw) == Fields(Trim(TrimSpace(raw), {Quote}))
  {
    var trimmed := TrimSpace(raw);
    if trimmed == [] {
      assert AllIn(trimmed, {Quote});
      assert Trim(trimmed, {Quote}) == [];
    }
  }

  /** No arguments exactly when nothing but whitespace is left once the outer quotes are gone. */
  lemma ParseArgsEmpty(raw: string)
    ensures ParseArgs(raw) == [] <==> AllIn(Trim(TrimSpace(raw), {Quote}), AsciiSpace)
  {
    ParseArgsIsFieldsOfStripped(raw);
    FieldsBlank(Trim(TrimSpace(raw), {Quote}));
  }

  /** `n` single quotes. */
  function Quotes(n: nat): (r: string)
    ensures |r| == n && AllIn(r, {Quote})
  {
    seq(n, _ => Quote)
  }

  /** `w` does not begin with a single quote. */
  predicate StartsUnquoted(w: string) {
    w == [] || w[0] != Quote
  }

  /** `w` does not end with a single quote. */
  predicate EndsUnquoted(w: string) {
    w == [] || w[|w| - 1] != Quote
  }

  /** `w` neither begins nor ends with a single quote. */
  predicate Unquoted(w: string) {
    StartsUnquoted(w) && EndsUnquoted(w)
  }

  /** The first and last characters of a non-empty join are those of the first and last words. */
  lemma {:induction false} JoinEnds(ws: seq<string>, sep: string)
    requires ws != [] && forall i :: 0 <= i < |ws| ==> ws[i] != []
    ensures Join(ws, sep) != []
    ensures Join(ws, sep)[0] == ws[0][0]
    ensures Join(ws, sep)[|Join(ws, sep)| - 1] == ws[|ws| - 1][|ws[|ws| - 1]| - 1]
  {
    if |ws| > 1 {
      assert forall i :: 0 <= i < |ws| - 1 ==> ws[1..][i] == ws[i + 1];
      JoinEnds(ws[1..], sep);
      var rest := Join(ws[1..], sep);
      assert Join(ws, sep) == ws[0] + sep + rest;
    }
  }

  /** Quotes around a join of words leave no whitespace at either end. */
  lemma {:induction false} QuotedJoinHasNoOuterSpace(j: string, before: nat, after: nat)
    requires Unquoted(j) && (j == [] || (!IsSpace(j[0]) && !IsSpace(j[|j| - 1])))
    ensures TrimSpace(Quotes(before) + j + Quotes(after)) == Quotes(before) + j + Quotes(after)
  {
    var p, q := Quotes(before), Quotes(after);
    var raw := p + j + q;
    assert !IsSpace(Quote);
    if raw != [] {
      if p != [] {
        assert raw[0] == p[0] == Quote;
      } else if j != [] {
        assert raw[0] == j[0];
      } else {
        assert raw[0] == q[0] == Quote;
      }
      if q != [] {
        assert raw[|raw| - 1] == q[|q| - 1] == Quote;
      } else if j != [] {
        assert raw[|raw| - 1] == j[|j| - 1];
      } else {
        assert raw[|raw| - 1] == p[|p| - 1] == Quote;
      }
    }
    TrimUnpadded(raw, AsciiSpace);
  }

  /** Stripping quotes undoes any number of them placed around an unquoted string. */
  lemma StripQuotes(before: nat, j: string, after: nat)
    requires Unquoted(j)
    ensures Trim(Quotes(before) + j + Quotes(after), {Quote}) == j
  {
    assert j == [] || (j[0] !in {Quote} && j[|j| - 1] !in {Quote});
    TrimPadded(Quotes(before), j, Quotes(after), {Quote});
  }

  /**
   * A space-joined run of words whose first character and last character are
   * not quotes is unquoted and has no whitespace at either end.
   */
  lemma JoinIsUnquotedWordRun(ws: seq<string>)
    requires forall i :: 0 <= i < |ws| ==> IsWord(ws[i])
    requires ws != [] ==> StartsUnquoted(ws[0]) && EndsUnquoted(ws[|ws| - 1])
    ensures var j := Join(ws, " ");
      Unquoted(j) && (j == [] || (!IsSpace(j[0]) && !IsSpace(j[|j| - 1])))
  {
    if ws != [] {
      JoinEnds(ws, " ");
      assert IsWord(ws[0]) && IsWord(ws[|ws| - 1]);
    }
  }

  /**
   * Words joined by single spaces, with any number of `'` before and after
   * (matched or not), come back as exactly those words, provided the first
   * word does not start with a quote and the last does not end with one
   * (quotes elsewhere, inside or at the inner ends of words, are kept).
   */
  lemma {:induction false} ParseArgsOfQuotedJoin(ws: seq<string>, before: nat, after: nat)
    requires forall i :: 0 <= i < |ws| ==> IsWord(ws[i])
    requires ws != [] ==> StartsUnquoted(ws[0]) && EndsUnquoted(ws[|ws| - 1])
    ensures ParseArgs(Quotes(before) + Join(ws, " ") + Quotes(after)) == ws
  {
    var j := Join(ws, " ");
    var raw := Quotes(before) + j + Quotes(after);
    assert Unquoted(j) && (j == [] || (!IsSpace(j[0]) && !IsSpace(j[|j| - 1]))) by {
      JoinIsUnquotedWordRun(ws);
    }
    assert TrimSpace(raw) == raw by {
      QuotedJoinHasNoOuterSpace(j, before, after);
    }
    assert Trim(raw, {Quote}) == j by {
      StripQuotes(before, j, after);
    }
    assert ParseArgs(raw) == Fields(j) by {
      ParseArgsIsFieldsOfStripped(raw);
    }
    FieldsJoin(ws, ' ');
  }
}
