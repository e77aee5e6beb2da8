/** The merchant bulk-import dialog of components/merchants/bulk-import.tsx:
    the schema's check on the pasted text, the preview list, the submit
    payload and the submit button's state. */
module BulkImport {
  import opened Wrappers
  import opened Text
  import Seqs

  /** The separators of `/[,\n\r]+/`; a run of them counts as one. */
  const Separators: set<char> := {',', '\n', '\r'}

  function NonEmptyTest(): string -> bool {
    (e: string) => |e| > 0
  }

  function HasAtTest(): string -> bool {
    (e: string) => Includes(e, "@")
  }

  /** The pieces between runs of separators, each trimmed. */
  function TrimmedRuns(value: string): (r: seq<string>)
    ensures |r| == |SplitRuns(value, Separators)|
    ensures forall k :: 0 <= k < |r| ==> r[k] == Trim(SplitRuns(value, Separators)[k])
  {
    Seqs.Map(Trim, SplitRuns(value, Separators))
  }

  /** The trimmed, non-empty pieces of the text: every non-empty trimmed
      piece, every copy, in text order. */
  function Tokens(value: string): (r: seq<string>)
    ensures forall k :: 0 <= k < |r| ==> r[k] != [] && forall j :: 0 <= j < |r[k]| ==> r[k][j] !in Separators
    ensures Seqs.IsSubsequence(r, TrimmedRuns(value))
    ensures forall t :: multiset(r)[t] == if t == [] then 0 else multiset(TrimmedRuns(value))[t]
  {
    var trimmed := TrimmedRuns(value);
    var r := Seqs.Filter(NonEmptyTest(), trimmed);
    forall k | 0 <= k < |r| ensures forall j :: 0 <= j < |r[k]| ==> r[k][j] !in Separators {
      TrimmedRunChars(value, r[k]);
    }
    Seqs.FilterIsSubsequence(NonEmptyTest(), trimmed);
    Seqs.FilterCounts(NonEmptyTest(), trimmed);
    r
  }

  /** A trimmed piece holds no separator. */
  lemma TrimmedRunChars(value: string, e: string)
    requires e in TrimmedRuns(value)
    ensures forall j :: 0 <= j < |e| ==> e[j] !in Separators
  {
    var pieces := SplitRuns(value, Separators);
    var m :| 0 <= m < |pieces| && Trim(pieces[m]) == e;
    forall j | 0 <= j < |e| ensures e[j] !in Separators {
      assert e[j] in pieces[m];
    }
  }

  /** `bulkImportSchema.emails`: at least one character, at least one
      token, and an `@` in every token. */
  predicate SchemaAccepts(value: string) {
    var tokens := Tokens(value);
    && |value| >= 1
    && |tokens| > 0
    && forall k :: 0 <= k < |tokens| ==> Includes(tokens[k], "@")
  }

  /** `parseEmails`: the trimmed pieces that contain an `@` (and so are
      not empty), every copy, in text order. */
  function ParseEmails(value: string): (r: seq<string>)
    ensures |r| <= |Tokens(value)|
    ensures forall k :: 0 <= k < |r| ==> Includes(r[k], "@") && r[k] != []
    ensures Seqs.IsSubsequence(r, Tokens(value))
  {
    var tokens := Tokens(value);
    var r := Seqs.Filter(HasAtTest(), tokens);
    Seqs.FilterIsSubsequence(HasAtTest(), tokens);
    forall k | 0 <= k < |r| ensures r[k] != [] {
      var m :| 0 <= m < |tokens| && tokens[m] == r[k];
    }
    r
  }

  /** The preview is complete: it holds every trimmed piece with an `@`, as
      many times as the text holds it, and nothing else. */
  lemma ParseEmailsKeepsEveryCopy(value: string)
    ensures forall t :: multiset(ParseEmails(value))[t]
                     == if Includes(t, "@") then multiset(TrimmedRuns(value))[t] else 0
  {
    var tokens := Tokens(value);
    Seqs.FilterCounts(HasAtTest(), tokens);
    forall t ensures multiset(ParseEmails(value))[t]
                  == if Includes(t, "@") then multiset(TrimmedRuns(value))[t] else 0 {
      if Includes(t, "@") {
        assert t != [];
      }
    }
  }

  /** Every trimmed piece with an `@` is in the preview. */
  lemma ParseEmailsMissesNothing(value: string, k: int)
    requires 0 <= k < |TrimmedRuns(value)| && Includes(TrimmedRuns(value)[k], "@")
    ensures TrimmedRuns(value)[k] in ParseEmails(value)
  {
    var trimmed := TrimmedRuns(value);
    ParseEmailsKeepsEveryCopy(value);
    assert multiset(trimmed)[trimmed[k]] > 0;
    assert multiset(ParseEmails(value))[trimmed[k]] > 0;
  }

  /** When the schema accepts, the preview lists every token. */
  lemma AcceptedPreviewIsComplete(value: string)
    requires SchemaAccepts(value)
    ensures ParseEmails(value) == Tokens(value)
    ensures |ParseEmails(value)| > 0
  {
    Seqs.FilterAll(HasAtTest(), Tokens(value));
  }

  /** The schema rejects text whose preview is empty. */
  lemma EmptyPreviewIsRejected(value: string)
    requires ParseEmails(value) == []
    ensures !SchemaAccepts(value)
  {
    if SchemaAccepts(value) {
      AcceptedPreviewIsComplete(value);
    }
  }

  /** A token without an `@` makes the schema reject, even when other
      tokens would import. */
  lemma TokenWithoutAtIsRejected(value: string, k: int)
    requires 0 <= k < |Tokens(value)| && !Includes(Tokens(value)[k], "@")
    ensures !SchemaAccepts(value)
  {
  }

  /** Text with no comma or line break, whatever spaces it holds, splits
      into one piece. */
  lemma {:induction false} SplitRunsWhole(s: string)
    requires forall k :: 0 <= k < |s| ==> s[k] !in Separators
    ensures SplitRuns(s, Separators) == [s]
  {
    if s != [] {
      SplitRunsWhole(s[1..]);
      assert [s[0]] + s[1..] == s;
    }
  }

  /** Spaces do not separate: trimmed text with an `@` and no comma or line
      break is a single preview entry, e.g. "a@x.com b@y.com". */
  lemma SpacesDoNotSeparate(s: string)
    requires s != [] && Trim(s) == s && Includes(s, "@")
    requires forall k :: 0 <= k < |s| ==> s[k] !in Separators
    ensures ParseEmails(s) == [s]
  {
    SplitRunsWhole(s);
    assert Seqs.Map(Trim, [s]) == [s];
    assert [s][1..] == [];
    assert Seqs.Filter(NonEmptyTest(), [s]) == [s];
    assert Seqs.Filter(HasAtTest(), [s]) == [s];
  }

  /** The request the dialog submits: the raw text, and the default name
      unless it is empty. */
  datatype BulkImportRequest = BulkImportRequest(emails: string, defaultName: Option<string>)

  function SubmitPayload(emails: string, defaultName: Option<string>): (r: BulkImportRequest)
    ensures r.emails == emails
    ensures r.defaultName.None? <==> defaultName.None? || defaultName.value == ""
    ensures r.defaultName.Some? ==> r.defaultName == defaultName
  {
    BulkImportRequest(emails, if defaultName.Some? && defaultName.value != "" then defaultName else None)
  }

  /** The submit button is disabled while importing or with an empty
      preview. */
  predicate SubmitDisabled(isPending: bool, value: string) {
    isPending || |ParseEmails(value)| == 0
  }

  /** Text the schema accepts always enables the submit button once no
      import is running; the converse fails (see `TokenWithoutAtIsRejected`:
      the button only needs one token with an `@`). */
  lemma AcceptedEnablesSubmit(value: string)
    requires SchemaAccepts(value)
    ensures !SubmitDisabled(false, value)
    ensures SubmitDisabled(true, value)
  {
    AcceptedPreviewIsComplete(value);
  }

  /** The button is enabled by any text holding one token with an `@`, even
      when the schema rejects that text because of another token. */
  lemma EnabledThoughRejected(value: string, i: int, k: int)
    requires 0 <= i < |Tokens(value)| && Includes(Tokens(value)[i], "@")
    requires 0 <= k < |Tokens(value)| && !Includes(Tokens(value)[k], "@")
    ensures !SubmitDisabled(false, value)
    ensures !SchemaAccepts(value)
  {
    var tokens := Tokens(value);
    assert tokens[i] in ParseEmails(value);
  }

  /** The first ten entries shown, and the number of the others. */
  function PreviewList(value: string): (r: (seq<string>, Option<nat>))
    ensures |r.0| <= 10 && |r.0| <= |ParseEmails(value)| && r.0 == ParseEmails(value)[..|r.0|]
    ensures r.1.Some? <==> |ParseEmails(value)| > 10
    ensures r.1.Some? ==> |r.0| + r.1.value == |ParseEmails(value)|
  {
    var all := ParseEmails(value);
    (Seqs.Take(all, 10), if |all| > 10 then Some(|all| - 10) else None)
  }
}
