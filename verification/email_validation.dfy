/** The client-side address check of hooks/use-reports.ts
    (`useValidateEmails`) and the failed-address summary shown after a
    report is sent. The regular expression `^[^\s@]+@[^\s@]+\.[^\s@]+$` is
    given twice: as the decomposition it describes (`MatchesEmailPattern`)
    and as a direct scan (`IsValidEmail`); the two are proved equal. */
module EmailValidation {
  import opened Wrappers
  import opened Text
  import Seqs

  /** A character of the class `[^\s@]`. */
  predicate Atom(c: char) {
    !IsSpace(c) && c != '@'
  }

  /** `[^\s@]+` */
  predicate AtomRun(s: string) {
    |s| >= 1 && forall k :: 0 <= k < |s| ==> Atom(s[k])
  }

  /** The regular expression read as a decomposition: `local@domain.tld`,
      split at the `@` at `i` and at a `.` at `j`. */
  predicate MatchesAt(s: string, i: int, j: int) {
    && 0 < i < j < |s|
    && s[i] == '@' && s[j] == '.'
    && AtomRun(s[..i]) && AtomRun(s[i + 1..j]) && AtomRun(s[j + 1..])
  }

  predicate MatchesEmailPattern(s: string) {
    exists i, j :: 0 < i < j < |s| && MatchesAt(s, i, j)
  }

  /** The position of the first `c`, or `|s|` when there is none. */
  function FirstIndex(s: string, c: char): (r: nat)
    ensures r <= |s|
    ensures forall k :: 0 <= k < r ==> s[k] != c
    ensures r < |s| ==> s[r] == c
  {
    if s == [] then 0
    else if s[0] == c then 0
    else 1 + FirstIndex(s[1..], c)
  }

  /** A `.` with at least one character on each side. */
  predicate DotInside(d: string) {
    exists k :: 0 < k < |d| - 1 && d[k] == '.'
  }

  /** The scan: no whitespace, a non-empty part before the first `@`, no
      second `@`, and an inner `.` in what follows it. */
  predicate IsValidEmail(s: string) {
    var at := FirstIndex(s, '@');
    && NoSpace(s)
    && 0 < at < |s|
    && (forall k :: at < k < |s| ==> s[k] != '@')
    && DotInside(s[at + 1..])
  }

  /** The scan accepts exactly what the regular expression matches. */
  lemma EmailScanIffPattern(s: string)
    ensures IsValidEmail(s) <==> MatchesEmailPattern(s)
  {
    if IsValidEmail(s) {
      var at := FirstIndex(s, '@');
      var d := s[at + 1..];
      var k :| 0 < k < |d| - 1 && d[k] == '.';
      var j := at + 1 + k;
      assert s[j] == d[k];
      assert s[..at] == s[..at];
      var mid, tld := s[at + 1..j], s[j + 1..];
      forall m | 0 <= m < |mid| ensures Atom(mid[m]) {
        assert mid[m] == s[at + 1 + m];
      }
      forall m | 0 <= m < |tld| ensures Atom(tld[m]) {
        assert tld[m] == s[j + 1 + m];
      }
      assert MatchesAt(s, at, j);
    }
    if MatchesEmailPattern(s) {
      var i, j :| MatchesAt(s, i, j);
      PatternFacts(s, i, j);
    }
  }

  /** What one decomposition tells about the scan. */
  lemma PatternFacts(s: string, i: int, j: int)
    requires MatchesAt(s, i, j)
    ensures IsValidEmail(s)
  {
    forall k | 0 <= k < |s| && k != i ensures Atom(s[k]) {
      if k < i {
        assert s[k] == s[..i][k];
      } else if k < j {
        assert s[k] == s[i + 1..j][k - i - 1];
      } else if k > j {
        assert s[k] == s[j + 1..][k - j - 1];
      }
    }
    assert FirstIndex(s, '@') == i;
    var d := s[i + 1..];
    assert d[j - i - 1] == '.';
    assert DotInside(d);
  }

  /** The pointwise form of the rule: trimmed, an address is valid iff it
      has no whitespace, exactly one `@` with text before it, and a `.`
      after the `@` with a character on each side. */
  lemma ValidIffShape(s: string)
    ensures IsValidEmail(s) <==>
      && NoSpace(s)
      && (exists i :: 0 < i < |s| && s[i] == '@' && (forall k :: 0 <= k < |s| && k != i ==> s[k] != '@')
                      && DotInside(s[i + 1..]))
  {
    var at := FirstIndex(s, '@');
    if exists i :: 0 < i < |s| && s[i] == '@' && (forall k :: 0 <= k < |s| && k != i ==> s[k] != '@')
                    && DotInside(s[i + 1..]) {
      var i :| 0 < i < |s| && s[i] == '@' && (forall k :: 0 <= k < |s| && k != i ==> s[k] != '@')
                && DotInside(s[i + 1..]);
      assert at == i;
    }
  }

  /** The result of `useValidateEmails`. */
  datatype Validation = Validation(
    validEmails: seq<string>,
    invalidEmails: seq<string>,
    totalCount: nat,
    validCount: nat,
    invalidCount: nat)

  function ValidTest(): string -> bool {
    (s: string) => IsValidEmail(s)
  }

  function InvalidTest(): string -> bool {
    (s: string) => !IsValidEmail(s)
  }

  /** `useValidateEmails`: trim every entry, then split the trimmed entries
      into valid and invalid ones, keeping their order. */
  function ValidateEmails(emails: seq<string>): (r: Validation)
    ensures r.validCount == |r.validEmails| && r.invalidCount == |r.invalidEmails|
    ensures r.validCount + r.invalidCount == r.totalCount == |emails|
  {
    var trimmed := Seqs.Map(Trim, emails);
    var valid := Seqs.Filter(ValidTest(), trimmed);
    var invalid := Seqs.Filter(InvalidTest(), trimmed);
    ValidationCounts(trimmed);
    Validation(valid, invalid, |emails|, |valid|, |invalid|)
  }

  lemma ValidationCounts(trimmed: seq<string>)
    ensures |Seqs.Filter(ValidTest(), trimmed)| + |Seqs.Filter(InvalidTest(), trimmed)| == |trimmed|
  {
    Seqs.FilterComplementLength(ValidTest(), trimmed);
    FilterSameTest(x => !ValidTest()(x), InvalidTest(), trimmed);
  }

  /** The two lists are the order-preserving partition of the trimmed
      inputs by the address rule. */
  lemma ValidationPartitions(emails: seq<string>)
    ensures var r := ValidateEmails(emails);
      && (forall k :: 0 <= k < |r.validEmails| ==> IsValidEmail(r.validEmails[k]))
      && (forall k :: 0 <= k < |r.invalidEmails| ==> !IsValidEmail(r.invalidEmails[k]))
      && Seqs.IsSubsequence(r.validEmails, Seqs.Map(Trim, emails))
      && Seqs.IsSubsequence(r.invalidEmails, Seqs.Map(Trim, emails))
  {
    var trimmed := Seqs.Map(Trim, emails);
    Seqs.FilterIsSubsequence(ValidTest(), trimmed);
    Seqs.FilterIsSubsequence(InvalidTest(), trimmed);
  }

  /** Two tests that agree everywhere filter alike. */
  lemma {:induction false} FilterSameTest(p: string -> bool, q: string -> bool, xs: seq<string>)
    requires forall x :: p(x) == q(x)
    ensures Seqs.Filter(p, xs) == Seqs.Filter(q, xs)
  {
    if xs != [] {
      FilterSameTest(p, q, xs[1..]);
    }
  }

  /** Every address in either list is one of the inputs, trimmed. */
  lemma EntriesAreTrimmedInputs(emails: seq<string>, k: int)
    requires 0 <= k < |ValidateEmails(emails).validEmails|
    ensures exists m :: 0 <= m < |emails| && ValidateEmails(emails).validEmails[k] == Trim(emails[m])
  {
    var trimmed := Seqs.Map(Trim, emails);
    var e := ValidateEmails(emails).validEmails[k];
    assert e in Seqs.Filter(ValidTest(), trimmed);
    var m :| 0 <= m < |trimmed| && trimmed[m] == e;
  }

  /** An input passes iff its trimmed form is valid: the valid list is
      exactly the trimmed valid inputs. */
  lemma ValidListIsExact(emails: seq<string>, e: string)
    ensures e in ValidateEmails(emails).validEmails <==>
      IsValidEmail(e) && exists m :: 0 <= m < |emails| && Trim(emails[m]) == e
  {
    var trimmed := Seqs.Map(Trim, emails);
    Seqs.FilterMembership(ValidTest(), trimmed, e);
    if e in trimmed {
      var m :| 0 <= m < |trimmed| && trimmed[m] == e;
    }
    if exists m :: 0 <= m < |emails| && Trim(emails[m]) == e {
      var m :| 0 <= m < |emails| && Trim(emails[m]) == e;
      assert trimmed[m] == e;
    }
  }

  /** A valid address has no whitespace, so trimming leaves it alone. */
  lemma TrimKeepsValid(xs: seq<string>)
    requires forall k :: 0 <= k < |xs| ==> IsValidEmail(xs[k])
    ensures Seqs.Map(Trim, xs) == xs
  {
    var again := Seqs.Map(Trim, xs);
    forall k | 0 <= k < |xs| ensures again[k] == xs[k] {
      assert NoSpace(xs[k]);
    }
  }

  /** Validating the accepted list again rejects nothing. */
  lemma RevalidationRejectsNothing(emails: seq<string>)
    ensures ValidateEmails(ValidateEmails(emails).validEmails).invalidCount == 0
  {
    var valid := ValidateEmails(emails).validEmails;
    ValidationPartitions(emails);
    TrimKeepsValid(valid);
    Seqs.FilterNone(InvalidTest(), valid);
  }

  // ---- the failed-address summary of useSendInventoryReport ----

  /** One entry of `results` in the send response. */
  datatype SendResult = SendResult(email: string, success: bool)

  function FailedTest(): SendResult -> bool {
    (r: SendResult) => !r.success
  }

  function EmailOf(r: SendResult): string {
    r.email
  }

  /** The addresses of the failed entries, in order. */
  function FailedEmails(results: seq<SendResult>): (r: seq<string>)
    ensures |r| <= |results|
  {
    Seqs.Map(EmailOf, Seqs.Filter(FailedTest(), results))
  }

  /** `.filter(r => !r.success).map(r => r.email).slice(0, 3)` */
  function ShownFailures(results: seq<SendResult>): (r: seq<string>)
    ensures |r| <= 3 && |r| <= |FailedEmails(results)|
    ensures r == FailedEmails(results)[..|r|]
    ensures |FailedEmails(results)| <= 3 ==> r == FailedEmails(results)
  {
    Seqs.Take(FailedEmails(results), 3)
  }

  const FailurePrefix: string := "Failed to send to: "
  const OthersSuffix: string := " and others"

  /** The error toast after a send: none when nothing failed; otherwise the
      first three failed addresses, then " and others" when the server
      reports more than three failures. */
  function FailureToast(results: seq<SendResult>, totalFailed: int): (r: Option<string>)
    ensures r.Some? <==> totalFailed > 0
    ensures r.Some? ==> StartsWith(r.value, FailurePrefix + Join(", ", ShownFailures(results)))
    ensures r.Some? && totalFailed <= 3 ==> r.value == FailurePrefix + Join(", ", ShownFailures(results))
    ensures r.Some? && totalFailed > 3 ==>
      r.value == FailurePrefix + Join(", ", ShownFailures(results)) + OthersSuffix
  {
    if totalFailed <= 0 then None
    else
      var head := FailurePrefix + Join(", ", ShownFailures(results));
      var tail := if totalFailed > 3 then OthersSuffix else "";
      assert (head + tail)[..|head|] == head;
      Some(head + tail)
  }
}
