/** Normalisation of the free-text purchase-order reference carried by
    invoices and goods receipts: strip surrounding whitespace, then keep the
    leftmost `PO-<digits>` token if there is one, else the stripped text. */
module Reference {
  import opened Wrappers

  /** Python's `str.isspace` on the ASCII range: HT, LF, VT, FF, CR, the
      information separators 0x1C-0x1F, and the space itself. */
  predicate IsSpace(c: char) {
    c == ' ' || (9 <= c as int <= 13) || (0x1C <= c as int <= 0x1F)
  }

  /** The regular-expression class `\d`, restricted to ASCII digits. */
  predicate IsDigit(c: char) {
    '0' <= c <= '9'
  }

  predicate AllSpace(s: string) {
    forall k :: 0 <= k < |s| ==> IsSpace(s[k])
  }

  /** Neither the first nor the last character is whitespace. */
  predicate Trimmed(s: string) {
    |s| > 0 ==> !IsSpace(s[0]) && !IsSpace(s[|s| - 1])
  }

  /** `s` occurs in `t` starting at position `i`. */
  predicate OccursAt(s: string, t: string, i: int) {
    0 <= i <= |t| - |s| && t[i..i + |s|] == s
  }

  /** `s` occurs contiguously inside `t`. */
  ghost predicate IsSubstring(s: string, t: string) {
    exists i :: OccursAt(s, t, i)
  }

  /** `PO-` followed by at least one digit starts at position `i` of `s`. */
  predicate PoAt(s: string, i: nat) {
    i + 4 <= |s| && s[i] == 'P' && s[i + 1] == 'O' && s[i + 2] == '-' && IsDigit(s[i + 3])
  }

  /** A whole `PO-<digits>` token with at least one digit. */
  predicate IsPoToken(s: string) {
    |s| >= 4 && s[..3] == "PO-" && forall k :: 3 <= k < |s| ==> IsDigit(s[k])
  }

  function StripStart(s: string): (r: string)
    ensures |r| <= |s| && r == s[|s| - |r|..]
    ensures AllSpace(s[..|s| - |r|])
    ensures |r| > 0 ==> !IsSpace(r[0])
  {
    if |s| > 0 && IsSpace(s[0]) then
      var r := StripStart(s[1..]);
      assert s[1..][..|s[1..]| - |r|] == s[1..|s| - |r|];
      r
    else
      s
  }

  function StripEnd(s: string): (r: string)
    ensures |r| <= |s| && r == s[..|r|]
    ensures AllSpace(s[|r|..])
    ensures |r| > 0 ==> !IsSpace(r[|r| - 1])
  {
    if |s| > 0 && IsSpace(s[|s| - 1]) then
      var r := StripEnd(s[..|s| - 1]);
      assert s[..|s| - 1][|r|..] == s[|r|..|s| - 1];
      r
    else
      s
  }

  /** Python's `str.strip()` with no argument: the text between the leading
      and the trailing run of whitespace. */
  function Strip(s: string): (r: string)
    ensures Trimmed(r)
    ensures exists i :: OccursAt(r, s, i) && AllSpace(s[..i]) && AllSpace(s[i + |r|..])
  {
    var t := StripStart(s);
    var r := StripEnd(t);
    StrippedBetween(s, t, r);
    r
  }

  /** Dropping a whitespace prefix of `s` to get `t`, then a whitespace
      suffix of `t` to get `r`, leaves `r` inside `s` between two whitespace
      runs. */
  lemma StrippedBetween(s: string, t: string, r: string)
    requires |t| <= |s| && t == s[|s| - |t|..] && AllSpace(s[..|s| - |t|])
    requires |r| <= |t| && r == t[..|r|] && AllSpace(t[|r|..])
    ensures var i := |s| - |t|; OccursAt(r, s, i) && AllSpace(s[..i]) && AllSpace(s[i + |r|..])
  {
    var i := |s| - |t|;
    assert s[i..i + |r|] == r;
    assert s[i + |r|..] == t[|r|..];
  }

  /** The leftmost position at or after `from` where a `PO-<digit>` match
      starts; the search `re.search` performs. */
  function FindPo(s: string, from: nat): (r: Option<nat>)
    requires from <= |s|
    ensures r.Some? ==> from <= r.value && PoAt(s, r.value)
    ensures r.Some? ==> forall k :: from <= k < r.value ==> !PoAt(s, k)
    ensures r.None? ==> forall k :: from <= k ==> !PoAt(s, k)
    decreases |s| - from
  {
    if from == |s| then None
    else if PoAt(s, from) then Some(from)
    else FindPo(s, from + 1)
  }

  /** The end of the maximal run of digits starting at `j`: the greedy `\d+`. */
  function DigitsEnd(s: string, j: nat): (e: nat)
    requires j <= |s|
    ensures j <= e <= |s|
    ensures forall k :: j <= k < e ==> IsDigit(s[k])
    ensures e == |s| || !IsDigit(s[e])
    decreases |s| - j
  {
    if j < |s| && IsDigit(s[j]) then DigitsEnd(s, j + 1) else j
  }

  lemma SubstringTransitive(r: string, t: string, s: string)
    requires IsSubstring(r, t) && IsSubstring(t, s)
    ensures IsSubstring(r, s)
  {
    var i :| OccursAt(r, t, i);
    var j :| OccursAt(t, s, j);
    assert forall k :: 0 <= k < |r| ==> s[j + i + k] == t[i + k] == r[k];
    assert s[j + i..j + i + |r|] == r;
    assert OccursAt(r, s, j + i);
  }

  /** `r` is the whole greedy `PO-\d+` match starting at position `i` of
      `text`: it occurs there and the digit run does not continue past it. */
  predicate GreedyTokenAt(r: string, text: string, i: nat) {
    IsPoToken(r) && OccursAt(r, text, i) && (i + |r| == |text| || !IsDigit(text[i + |r|]))
  }

  /** The token the greedy `PO-\d+` match starting at `i` covers. */
  function TokenAt(text: string, i: nat): (token: string)
    requires PoAt(text, i)
    ensures IsPoToken(token) && Trimmed(token) && OccursAt(token, text, i)
    ensures i + |token| == |text| || !IsDigit(text[i + |token|])
  {
    var e := DigitsEnd(text, i + 3);
    var token := text[i..e];
    assert token[..3] == "PO-";
    assert forall k :: 3 <= k < |token| ==> token[k] == text[i + k];
    token
  }

  /** The search on already stripped text: the leftmost `PO-\d+` match, or
      else the text itself. */
  function Pick(text: string): (r: string)
    ensures IsSubstring(r, text)
    ensures Trimmed(text) ==> Trimmed(r)
  {
    match FindPo(text, 0)
    case Some(i) => TokenAt(text, i)
    case None => assert OccursAt(text, text, 0); text
  }

  /** `_normalize_po_reference`: None stays None; otherwise the stripped text
      is searched for `PO-\d+` and the leftmost match, or else the stripped
      text itself, is returned. */
  function Normalize(value: Option<string>): (r: Option<string>)
    ensures r.None? <==> value.None?
    ensures r.Some? ==> Trimmed(r.value) && IsSubstring(r.value, value.value)
  {
    match value
    case None => None
    case Some(v) =>
      var text := Strip(v);
      SubstringTransitive(Pick(text), text, v);
      Some(Pick(text))
  }

  /** With a match at `i` and none before it, the search returns the greedy
      token at `i`. */
  lemma PickLeftmost(text: string, i: nat)
    requires PoAt(text, i)
    requires forall k :: 0 <= k < i ==> !PoAt(text, k)
    ensures GreedyTokenAt(Pick(text), text, i)
  {
    assert FindPo(text, 0) == Some(i);
  }

  /** When the stripped text contains `PO-<digit>`, the result is the token
      starting at the leftmost such position, extended over the whole run of
      digits that follows. */
  lemma NormalizeExtractsLeftmostToken(v: string, i: nat)
    requires PoAt(Strip(v), i)
    requires forall k :: 0 <= k < i ==> !PoAt(Strip(v), k)
    ensures GreedyTokenAt(Normalize(Some(v)).value, Strip(v), i)
  {
    var t := Strip(v);
    assert Normalize(Some(v)).value == Pick(t);
    PickLeftmost(t, i);
  }

  /** Without any `PO-<digit>` in the stripped text, that text is kept verbatim. */
  lemma NormalizeKeepsStrippedText(v: string)
    requires forall k :: !PoAt(Strip(v), k)
    ensures Normalize(Some(v)) == Some(Strip(v))
  {
    assert FindPo(Strip(v), 0).None?;
  }

  lemma StripTrimmed(s: string)
    requires Trimmed(s)
    ensures Strip(s) == s
  {
    assert StripStart(s) == s;
  }

  /** Searching the search's own result finds it again. */
  lemma PickIdempotent(text: string)
    ensures Pick(Pick(text)) == Pick(text)
  {
    match FindPo(text, 0)
    case Some(i) =>
      var r := TokenAt(text, i);
      assert PoAt(r, 0);
      assert FindPo(r, 0) == Some(0);
      assert DigitsEnd(r, 3) == |r|;
      assert r[0..|r|] == r;
    case None =>
  }

  /** Normalising a normalised reference changes nothing. */
  lemma NormalizeIdempotent(value: Option<string>)
    ensures Normalize(Normalize(value)) == Normalize(value)
  {
    if value.Some? {
      var r := Normalize(value).value;
      StripTrimmed(r);
      PickIdempotent(Strip(value.value));
    }
  }
}
