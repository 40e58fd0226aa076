/** String normalisers: removing tags and writing Saudi phone numbers. */
module Normalizers {
  import opened Options
  import opened Sequences

  // ---- sanitizeString ---------------------------------------------------------------------

  /** The first position of `c` in `s` from `from` on. */
  function IndexOf(s: string, c: char, from: nat): (r: Option<nat>)
    requires from <= |s|
    ensures r.Some? ==> from <= r.value < |s|
    decreases |s| - from
  {
    if from == |s| then None else if s[from] == c then Some(from) else IndexOf(s, c, from + 1)
  }

  lemma {:induction false} IndexOfIsFirst(s: string, c: char, from: nat)
    requires from <= |s|
    ensures IndexOf(s, c, from).Some? ==>
              s[IndexOf(s, c, from).value] == c && forall k :: from <= k < IndexOf(s, c, from).value ==> s[k] != c
    ensures IndexOf(s, c, from).None? ==> forall k :: from <= k < |s| ==> s[k] != c
    decreases |s| - from
  {
    if from < |s| && s[from] != c {
      IndexOfIsFirst(s, c, from + 1);
    }
  }

  /** The first match of `<[^>]*>`: the positions of its two ends. */
  function FirstTag(s: string): (r: Option<(nat, nat)>)
    ensures r.Some? ==> r.value.0 < r.value.1 < |s|
  {
    var open := IndexOf(s, '<', 0);
    if open.None? then None
    else
      var close := IndexOf(s, '>', open.value + 1);
      if close.None? then None else Some((open.value, close.value))
  }

  /** No `<` stands before a later `>`. */
  predicate NoTag(s: string) {
    forall i, j :: 0 <= i < j < |s| ==> !(s[i] == '<' && s[j] == '>')
  }

  /** The ends of the first tag of a string. */
  predicate IsFirstTag(s: string, open: nat, close: nat) {
    && open < close < |s| && s[open] == '<' && s[close] == '>'
    && (forall k :: 0 <= k < open ==> s[k] != '<')
    && (forall k :: open <= k < close ==> s[k] != '>')
  }

  lemma FirstTagIsFirst(s: string)
    ensures FirstTag(s).None? <==> NoTag(s)
    ensures FirstTag(s).Some? ==> IsFirstTag(s, FirstTag(s).value.0, FirstTag(s).value.1)
  {
    IndexOfIsFirst(s, '<', 0);
    var open := IndexOf(s, '<', 0);
    if open.Some? {
      IndexOfIsFirst(s, '>', open.value + 1);
    }
  }

  /** Deletes every match of `<[^>]*>`, scanning from the left. */
  function Sanitize(s: string): string
    decreases |s|
  {
    match FirstTag(s)
    case None => s
    case Some((open, close)) => s[..open] + Sanitize(s[close + 1..])
  }

  /** A character is deleted exactly when it lies in a tag: some `<` stands at or before it with
      no `>` from there up to it, and some `>` stands at or after it. */
  ghost predicate Deleted(s: string, k: nat)
    requires k < |s|
  {
    (exists i :: 0 <= i <= k && OpensTo(s, i, k)) && (exists j :: k <= j < |s| && s[j] == '>')
  }

  predicate OpensTo(s: string, i: nat, k: nat)
    requires i <= k < |s|
  {
    s[i] == '<' && forall m :: i <= m < k ==> s[m] != '>'
  }

  /** The first `n` characters without the marked ones. */
  function Kept(s: string, mask: seq<bool>, n: nat): string
    requires n <= |s| == |mask|
  {
    if n == 0 then [] else Kept(s, mask, n - 1) + if mask[n - 1] then [] else [s[n - 1]]
  }

  /** Among the first `n` characters, exactly the deleted ones are marked. */
  ghost predicate Marks(s: string, mask: seq<bool>, n: nat)
    requires n <= |s| == |mask|
  {
    n == 0 || (Marks(s, mask, n - 1) && (mask[n - 1] <==> Deleted(s, n - 1)))
  }

  lemma {:induction false} MarkAt(s: string, mask: seq<bool>, n: nat, k: nat)
    requires k < n <= |s| == |mask| && Marks(s, mask, n)
    ensures mask[k] <==> Deleted(s, k)
    decreases n
  {
    if k < n - 1 {
      MarkAt(s, mask, n - 1, k);
    }
  }

  lemma {:induction false} AllKept(s: string, mask: seq<bool>, n: nat)
    requires n <= |s| == |mask| && forall k :: 0 <= k < n ==> !mask[k]
    ensures Kept(s, mask, n) == s[..n]
    decreases n
  {
    if n > 0 {
      AllKept(s, mask, n - 1);
    }
  }

  lemma {:induction false} NoneKept(s: string, mask: seq<bool>, from: nat, n: nat)
    requires from <= n <= |s| == |mask| && forall k :: from <= k < n ==> mask[k]
    ensures Kept(s, mask, n) == Kept(s, mask, from)
    decreases n
  {
    if n > from {
      NoneKept(s, mask, from, n - 1);
    }
  }

  /** From position `d` on, as much is kept as of the rest on its own. */
  lemma {:induction false} KeptOfRest(s: string, mask: seq<bool>, d: nat, n: nat)
    requires |mask| == |s| && d + n <= |s|
    ensures Kept(s, mask, d + n) == Kept(s, mask, d) + Kept(s[d..], mask[d..], n)
    decreases n
  {
    if n > 0 {
      KeptOfRest(s, mask, d, n - 1);
      Regroup(Kept(s, mask, d), Kept(s[d..], mask[d..], n - 1), if mask[d + n - 1] then [] else [s[d + n - 1]]);
    }
  }

  /** Nothing is marked before `open`, and everything from there up to `d`. */
  predicate MarksPart(mask: seq<bool>, open: nat, d: nat)
    requires open <= d <= |mask|
  {
    (forall k :: 0 <= k < open ==> !mask[k]) && (forall k :: open <= k < d ==> mask[k])
  }

  /** What is kept of a string with a marked part: what stands before it and what is kept behind. */
  lemma KeptAround(s: string, mask: seq<bool>, open: nat, d: nat, rest: string, mask': seq<bool>)
    requires open <= d <= |s| == |mask| && MarksPart(mask, open, d)
    requires rest == s[d..] && mask' == mask[d..]
    ensures Kept(s, mask, |s|) == s[..open] + Kept(rest, mask', |rest|)
  {
    AllKept(s, mask, open);
    NoneKept(s, mask, open, d);
    KeptOfRest(s, mask, d, |s| - d);
  }

  /** Behind a `>`, a character lies in a tag exactly when it does in the rest on its own. */
  lemma DeletedAfterTag(s: string, close: nat, k: nat)
    requires close < |s| && s[close] == '>' && close + 1 + k < |s|
    ensures Deleted(s, close + 1 + k) <==> Deleted(s[close + 1..], k)
  {
    var rest, d := s[close + 1..], close + 1;
    if Deleted(s, d + k) {
      var i :| 0 <= i <= d + k && OpensTo(s, i, d + k);
      var j :| d + k <= j < |s| && s[j] == '>';
      assert i > close;
      assert OpensTo(rest, i - d, k) by {
        forall m | i - d <= m < k ensures rest[m] != '>' {
          assert rest[m] == s[m + d];
        }
      }
      assert rest[j - d] == '>';
    }
    if Deleted(rest, k) {
      var i :| 0 <= i <= k && OpensTo(rest, i, k);
      var j :| k <= j < |rest| && rest[j] == '>';
      assert OpensTo(s, d + i, d + k) by {
        forall m | d + i <= m < d + k ensures s[m] != '>' {
          assert s[m] == rest[m - d];
        }
      }
      assert s[d + j] == '>';
    }
  }

  lemma NotDeletedWithoutTag(s: string, k: nat)
    requires NoTag(s) && k < |s|
    ensures !Deleted(s, k)
  {
    forall i, j | 0 <= i <= k <= j < |s| && s[j] == '>' ensures s[i] != '<' {
    }
  }

  lemma NothingMarked(s: string, mask: seq<bool>)
    requires NoTag(s) && |mask| == |s| && Marks(s, mask, |s|)
    ensures Kept(s, mask, |s|) == s
  {
    forall k | 0 <= k < |s| ensures !mask[k] {
      MarkAt(s, mask, |s|, k);
      NotDeletedWithoutTag(s, k);
    }
    AllKept(s, mask, |s|);
  }

  lemma NotDeletedBefore(s: string, open: nat, close: nat, k: nat)
    requires IsFirstTag(s, open, close) && k < open
    ensures !Deleted(s, k)
  {
  }

  lemma DeletedInside(s: string, open: nat, close: nat, k: nat)
    requires IsFirstTag(s, open, close) && open <= k <= close
    ensures Deleted(s, k)
  {
    assert OpensTo(s, open, k) && s[close] == '>';
  }

  /** Nothing is marked before the first tag, and all of the tag is. */
  lemma FirstTagIsMarked(s: string, mask: seq<bool>, open: nat, close: nat)
    requires IsFirstTag(s, open, close) && |mask| == |s| && Marks(s, mask, |s|)
    ensures MarksPart(mask, open, close + 1)
  {
    forall k | 0 <= k < open ensures !mask[k] {
      MarkAt(s, mask, |s|, k);
      NotDeletedBefore(s, open, close, k);
    }
    forall k | open <= k < close + 1 ensures mask[k] {
      MarkAt(s, mask, |s|, k);
      DeletedInside(s, open, close, k);
    }
  }

  lemma {:induction false} RestIsMarked(s: string, mask: seq<bool>, close: nat, rest: string, mask': seq<bool>, n: nat)
    requires |mask| == |s| && Marks(s, mask, |s|) && close < |s| && s[close] == '>'
    requires rest == s[close + 1..] && mask' == mask[close + 1..] && n <= |rest|
    ensures Marks(rest, mask', n)
    decreases n
  {
    if n > 0 {
      RestIsMarked(s, mask, close, rest, mask', n - 1);
      MarkAt(s, mask, |s|, close + n);
      DeletedAfterTag(s, close, n - 1);
    }
  }

  lemma SanitizeUnfolds(s: string)
    ensures FirstTag(s).None? ==> Sanitize(s) == s
    ensures FirstTag(s).Some? ==> Sanitize(s) == s[..FirstTag(s).value.0] + Sanitize(s[FirstTag(s).value.1 + 1..])
  {
  }

  /** One round of the scan. */
  lemma ScanOnce(s: string) returns (open: nat, close: nat, rest: string)
    ensures NoTag(s) ==> Sanitize(s) == s
    ensures !NoTag(s) ==>
              IsFirstTag(s, open, close) && rest == s[close + 1..] && Sanitize(s) == s[..open] + Sanitize(rest)
  {
    SanitizeUnfolds(s);
    FirstTagIsFirst(s);
    if FirstTag(s).Some? {
      open, close := FirstTag(s).value.0, FirstTag(s).value.1;
      rest := s[close + 1..];
    } else {
      open, close, rest := 0, 0, s;
    }
  }

  /** One round of the scan, with what it deletes. */
  lemma ScanMarked(s: string, mask: seq<bool>) returns (open: nat, d: nat, rest: string, mask': seq<bool>)
    requires |mask| == |s| && Marks(s, mask, |s|) && !NoTag(s)
    ensures open < d <= |s| && MarksPart(mask, open, d)
    ensures rest == s[d..] && mask' == mask[d..] && Marks(rest, mask', |rest|)
    ensures Sanitize(s) == s[..open] + Sanitize(rest)
  {
    var close;
    open, close, rest := ScanOnce(s);
    d, mask' := close + 1, mask[close + 1..];
    assert MarksPart(mask, open, d) by {
      FirstTagIsMarked(s, mask, open, close);
    }
    assert Marks(rest, mask', |rest|) by {
      RestIsMarked(s, mask, close, rest, mask', |rest|);
    }
  }

  lemma {:induction false} SanitizeDeletesMarked(s: string, mask: seq<bool>)
    requires |mask| == |s| && Marks(s, mask, |s|)
    ensures Sanitize(s) == Kept(s, mask, |s|)
    decreases |s|
  {
    if NoTag(s) {
      var _, _, _ := ScanOnce(s);
      NothingMarked(s, mask);
    } else {
      var open, d, rest, mask' := ScanMarked(s, mask);
      SanitizeDeletesMarked(rest, mask');
      KeptAround(s, mask, open, d, rest, mask');
    }
  }

  ghost function DeletedMask(s: string): seq<bool> {
    seq(|s|, k requires 0 <= k < |s| => Deleted(s, k))
  }

  lemma {:induction false} DeletedMaskMarks(s: string, n: nat)
    requires n <= |s|
    ensures Marks(s, DeletedMask(s), n)
    decreases n
  {
    if n > 0 {
      DeletedMaskMarks(s, n - 1);
    }
  }

  /** What the left-to-right scan leaves is exactly what lies in no tag. */
  lemma SanitizeDeletesTags(s: string)
    ensures Sanitize(s) == Kept(s, DeletedMask(s), |s|)
  {
    DeletedMaskMarks(s, |s|);
    SanitizeDeletesMarked(s, DeletedMask(s));
  }

  lemma SubsequencePush(a: string, b: string, x: char, skip: bool)
    requires Subsequence(a, b)
    ensures Subsequence(a + if skip then [] else [x], b + [x])
  {
    if skip {
      assert a + [] == a;
      SubsequenceSkip(a, b, x);
    } else {
      SubsequenceTake(a, b, x);
    }
  }

  lemma {:induction false} KeptIsSubsequence(s: string, mask: seq<bool>, n: nat)
    requires n <= |s| == |mask|
    ensures Subsequence(Kept(s, mask, n), s[..n])
    decreases n
  {
    if n > 0 {
      KeptIsSubsequence(s, mask, n - 1);
      SubsequencePush(Kept(s, mask, n - 1), s[..n - 1], s[n - 1], mask[n - 1]);
      TakeOneMore(s, n);
    }
  }

  lemma TakeOneMore(s: string, n: nat)
    requires 0 < n <= |s|
    ensures s[..n] == s[..n - 1] + [s[n - 1]]
  {
  }

  /** The result only lacks characters of the input. */
  lemma SanitizeOnlyDeletes(s: string)
    ensures Subsequence(Sanitize(s), s)
  {
    SanitizeDeletesTags(s);
    KeptIsSubsequence(s, DeletedMask(s), |s|);
    assert s[..|s|] == s;
  }

  lemma NoTagConcat(a: string, b: string)
    requires (forall k :: 0 <= k < |a| ==> a[k] != '<') && NoTag(b)
    ensures NoTag(a + b)
  {
  }

  lemma {:induction false} SanitizeLeavesNoTag(s: string)
    ensures NoTag(Sanitize(s))
    decreases |s|
  {
    var open, close, rest := ScanOnce(s);
    if !NoTag(s) {
      SanitizeLeavesNoTag(rest);
      NoTagConcat(s[..open], Sanitize(rest));
    }
  }

  /** A string is left alone exactly when it contains no tag, so sanitizing twice is sanitizing
      once. */
  lemma SanitizeIsIdempotent(s: string)
    ensures Sanitize(s) == s <==> NoTag(s)
    ensures Sanitize(Sanitize(s)) == Sanitize(s)
  {
    SanitizeLeavesNoTag(s);
    var open, close, rest := ScanOnce(s);
    open, close, rest := ScanOnce(Sanitize(s));
  }

  // ---- phone numbers ----------------------------------------------------------------------

  predicate IsDigit(c: char) {
    '0' <= c <= '9'
  }

  predicate AllDigits(s: string) {
    forall i :: 0 <= i < |s| ==> IsDigit(s[i])
  }

  /** The digits of `s`, in order. */
  function Digits(s: string): (r: string)
    ensures AllDigits(r)
  {
    if s == [] then [] else (if IsDigit(s[0]) then [s[0]] else []) + Digits(s[1..])
  }

  predicate IsValidSaudiPhone(phone: string) {
    |phone| == 13 && phone[..4] == "+966" && AllDigits(phone[4..])
  }

  function FormatSaudiPhone(phone: string): string {
    var digits := Digits(phone);
    if "966" <= digits then "+" + digits
    else if "5" <= digits then "+966" + digits
    else if "05" <= digits then "+966" + digits[1..]
    else phone
  }

  /** The three ways to write a number that can be normalised. */
  predicate Normalisable(digits: string) {
    || (|digits| == 12 && "966" <= digits)
    || (|digits| == 9 && "5" <= digits)
    || (|digits| == 10 && "05" <= digits)
  }

  lemma {:induction false} DigitsOfDigits(s: string)
    requires AllDigits(s)
    ensures Digits(s) == s
    decreases |s|
  {
    if s != [] {
      DigitsOfDigits(s[1..]);
    }
  }

  lemma DigitsOfPlus(s: string)
    requires AllDigits(s)
    ensures Digits("+" + s) == s
  {
    assert ("+" + s)[1..] == s;
    DigitsOfDigits(s);
  }

  /** Normalising twice is normalising once, for every string. */
  lemma FormatIsIdempotent(phone: string)
    ensures FormatSaudiPhone(FormatSaudiPhone(phone)) == FormatSaudiPhone(phone)
  {
    var digits := Digits(phone);
    if "966" <= digits {
      DigitsOfPlus(digits);
    } else if "5" <= digits {
      assert "+966" + digits == "+" + ("966" + digits);
      DigitsOfPlus("966" + digits);
    } else if "05" <= digits {
      assert "+966" + digits[1..] == "+" + ("966" + digits[1..]);
      DigitsOfPlus("966" + digits[1..]);
    }
  }

  lemma ValidPhoneDigits(phone: string)
    requires IsValidSaudiPhone(phone)
    ensures "966" <= Digits(phone)
  {
    assert phone == "+" + ("966" + phone[4..]);
    DigitsOfPlus("966" + phone[4..]);
  }

  lemma PrefixedIsValid(tail: string)
    requires AllDigits(tail)
    ensures IsValidSaudiPhone("+966" + tail) <==> |tail| == 9
  {
    assert ("+966" + tail)[..4] == "+966" && ("+966" + tail)[4..] == tail;
  }

  /** The result is a valid number exactly when the digits of the input are 966 and nine more, 5
      and eight more, or 05 and eight more. */
  lemma FormatIsValidExactly(phone: string)
    ensures IsValidSaudiPhone(FormatSaudiPhone(phone)) <==> Normalisable(Digits(phone))
  {
    var digits := Digits(phone);
    if IsValidSaudiPhone(phone) {
      ValidPhoneDigits(phone);
    }
    if "966" <= digits {
      assert digits[0] == '9';
      assert "+" + digits == "+966" + digits[3..];
      PrefixedIsValid(digits[3..]);
    } else if "5" <= digits {
      assert digits[0] == '5';
      PrefixedIsValid(digits);
    } else if "05" <= digits {
      assert digits[0] == '0';
      PrefixedIsValid(digits[1..]);
    }
  }

  /** A valid number is `+966` and nine digits. */
  lemma ValidExactly(phone: string)
    ensures IsValidSaudiPhone(phone) <==>
              && |phone| == 13 && phone[0] == '+' && phone[1] == '9' && phone[2] == '6' && phone[3] == '6'
              && forall i :: 4 <= i < 13 ==> '0' <= phone[i] <= '9'
  {
    if |phone| == 13 {
      assert phone[..4] == [phone[0], phone[1], phone[2], phone[3]];
      forall i | 4 <= i < 13 ensures phone[i] == phone[4..][i - 4] {
      }
    }
  }

  /** The digits of a string, in order: the characters from 0 to 9 and no others. */
  lemma {:induction false} DigitsAreKept(s: string, t: string)
    ensures Digits(s + t) == Digits(s) + Digits(t)
    ensures |s| == 1 ==> Digits(s) == if '0' <= s[0] <= '9' then s else ""
    decreases |s|
  {
    if s == "" {
      assert s + t == t;
    } else {
      assert (s + t)[1..] == s[1..] + t;
      DigitsAreKept(s[1..], t);
    }
  }

  lemma BehindPrefix(tail: string)
    ensures ("+966" + tail)[..4] == "+966" && ("+966" + tail)[4..] == tail
  {
  }

  lemma FormatOfDigits(phone: string)
    requires Normalisable(Digits(phone))
    ensures |Digits(phone)| >= 9 && FormatSaudiPhone(phone) == "+966" + Digits(phone)[|Digits(phone)| - 9..]
  {
    var digits := Digits(phone);
    if "966" <= digits {
      assert digits[0] == '9';
      assert "+" + digits == "+966" + digits[3..];
    } else if "5" <= digits {
      assert digits[0] == '5';
      assert digits[0..] == digits;
    } else {
      assert digits[0] == '0';
    }
  }

  /** `result` is `+966` and `tail`, nine digits. */
  predicate IsNumber(result: string, tail: string) {
    |result| == 13 && result[..4] == "+966" && result[4..] == tail
  }

  lemma SameNumbers(f: string, g: string, t: string, u: string)
    requires IsNumber(f, t) && IsNumber(g, u)
    ensures f == g <==> t == u
  {
    assert f == f[..4] + f[4..] && g == g[..4] + g[4..];
  }

  /** The last nine digits of a number that can be normalised. */
  function LastNine(phone: string): string
    requires Normalisable(Digits(phone))
  {
    var digits := Digits(phone);
    digits[|digits| - 9..]
  }

  /** A number that can be normalised keeps its last nine digits, behind `+966`. */
  lemma FormatKeepsNumber(phone: string)
    requires Normalisable(Digits(phone))
    ensures IsNumber(FormatSaudiPhone(phone), LastNine(phone))
  {
    FormatOfDigits(phone);
    BehindPrefix(LastNine(phone));
  }

  /** So two such numbers are written alike exactly when their last nine digits agree. */
  lemma SameNumberExactly(a: string, b: string)
    requires Normalisable(Digits(a)) && Normalisable(Digits(b))
    ensures FormatSaudiPhone(a) == FormatSaudiPhone(b) <==> LastNine(a) == LastNine(b)
  {
    FormatKeepsNumber(a);
    FormatKeepsNumber(b);
    SameNumbers(FormatSaudiPhone(a), FormatSaudiPhone(b), LastNine(a), LastNine(b));
  }

  /** A string whose digits start in no known way is left as it is. */
  lemma FormatLeavesOthers(phone: string)
    requires !("966" <= Digits(phone)) && !("5" <= Digits(phone)) && !("05" <= Digits(phone))
    ensures FormatSaudiPhone(phone) == phone
  {
  }

  /** Any other becomes its own digits behind a plus and, where it lacks them, 966; of the digits only
      a leading 0 is lost. */
  lemma FormatKeepsDigits(phone: string)
    ensures "966" <= Digits(phone) ==> FormatSaudiPhone(phone) == "+" + Digits(phone)
    ensures "5" <= Digits(phone) ==> FormatSaudiPhone(phone) == "+966" + Digits(phone)
    ensures "05" <= Digits(phone) ==> FormatSaudiPhone(phone) == "+966" + Digits(phone)[1..]
  {
    var digits := Digits(phone);
    if "5" <= digits {
      assert digits[0] == '5';
    } else if "05" <= digits {
      assert digits[0] == '0';
    }
  }
}
