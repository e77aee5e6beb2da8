/** Recipient-list editing in components/reports/recipient-selector.tsx:
    the custom-address parser, the per-merchant toggle, select-all, editing
    the custom addresses, removing one address, and the merchant search.
    The selection is a list of addresses; `onSelectionChange` is modelled
    by returning the new list, and the `merchants` query result is an
    `Option` (`None` while it loads). */
module Recipients {
  import opened Wrappers
  import opened Types
  import opened Text
  import Seqs

  /** `maxRecipients = 1000` when the page passes no cap. */
  const DefaultMaxRecipients: nat := 1000

  /** The separators of `/[,\n]/`. */
  const Separators: set<char> := {',', '\n'}

  function TrimmedTest(): string -> bool {
    (e: string) => |e| > 0
  }

  /** `text.split(/[,\n]/).map(e => e.trim()).filter(e => e.length > 0)` */
  function ParseEmailList(text: string): (r: seq<string>)
    ensures forall k :: 0 <= k < |r| ==> Clean(r[k])
    ensures Seqs.IsSubsequence(r, TrimmedPieces(text))
    ensures forall t :: multiset(r)[t] == if t == [] then 0 else multiset(TrimmedPieces(text))[t]
  {
    var pieces := TrimmedPieces(text);
    var r := Seqs.Filter(TrimmedTest(), pieces);
    forall k | 0 <= k < |r| ensures Clean(r[k]) {
      CleanFromParse(text, r[k]);
    }
    Seqs.FilterIsSubsequence(TrimmedTest(), pieces);
    forall t ensures multiset(r)[t] == if t == [] then 0 else multiset(pieces)[t] {
      Seqs.FilterCount(TrimmedTest(), pieces, t);
    }
    r
  }

  /** The pieces of `text` between separators, each trimmed: the tokens
      before empty ones are dropped. */
  function TrimmedPieces(text: string): (r: seq<string>)
    ensures |r| == |Split(text, Separators)|
    ensures forall k :: 0 <= k < |r| ==> r[k] == Trim(Split(text, Separators)[k])
  {
    Seqs.Map(Trim, Split(text, Separators))
  }

  /** A parsed token: non-empty, already trimmed, and free of separators. */
  predicate Clean(e: string) {
    && e != []
    && Trim(e) == e
    && forall k :: 0 <= k < |e| ==> e[k] !in Separators
  }

  lemma CleanFromParse(text: string, e: string)
    requires e in Seqs.Filter(TrimmedTest(), TrimmedPieces(text))
    ensures Clean(e)
  {
    var pieces := Split(text, Separators);
    var trimmed := TrimmedPieces(text);
    Seqs.FilterMembership(TrimmedTest(), trimmed, e);
    var m :| 0 <= m < |trimmed| && trimmed[m] == e;
    TrimIdempotent(pieces[m]);
    forall k | 0 <= k < |e| ensures e[k] !in Separators {
      var piece := pieces[m];
      assert e[k] in piece;
      var j :| 0 <= j < |piece| && piece[j] == e[k];
    }
  }

  /** A piece without separators splits to itself. */
  lemma {:induction false} SplitWhole(a: string)
    requires forall k :: 0 <= k < |a| ==> a[k] !in Separators
    ensures Split(a, Separators) == [a]
  {
    if a != [] {
      SplitWhole(a[1..]);
      assert [a[0]] + a[1..] == a;
    }
  }

  /** A separator after a separator-free piece ends that piece. */
  lemma {:induction false} SplitAfterPiece(a: string, c: char, rest: string)
    requires c in Separators
    requires forall k :: 0 <= k < |a| ==> a[k] !in Separators
    ensures Split(a + [c] + rest, Separators) == [a] + Split(rest, Separators)
  {
    var s := a + [c] + rest;
    if a == [] {
      assert s[1..] == rest;
    } else {
      assert s[1..] == a[1..] + [c] + rest;
      SplitAfterPiece(a[1..], c, rest);
      assert [a[0]] + a[1..] == a;
    }
  }

  /** Joining clean tokens with a separator and splitting again gives the
      tokens back. */
  lemma {:induction false} SplitJoined(xs: seq<string>)
    requires |xs| >= 1
    requires forall i, k :: 0 <= i < |xs| && 0 <= k < |xs[i]| ==> xs[i][k] !in Separators
    ensures Split(Join("\n", xs), Separators) == xs
  {
    if |xs| == 1 {
      SplitWhole(xs[0]);
    } else {
      SplitJoined(xs[1..]);
      assert Join("\n", xs) == xs[0] + ['\n'] + Join("\n", xs[1..]);
      SplitAfterPiece(xs[0], '\n', Join("\n", xs[1..]));
      assert [xs[0]] + xs[1..] == xs;
    }
  }

  /** The empty text parses to no tokens. */
  lemma ParseEmpty()
    ensures ParseEmailList("") == []
  {
    assert Split("", Separators) == [""];
    assert Seqs.Map(Trim, [""]) == [""];
    assert Seqs.Filter(TrimmedTest(), [""]) == [];
  }

  /** Trimming clean tokens leaves them alone. */
  lemma TrimClean(xs: seq<string>)
    requires forall i :: 0 <= i < |xs| ==> Clean(xs[i])
    ensures Seqs.Map(Trim, xs) == xs
  {
  }

  /** Parsing clean tokens joined by newlines gives the same tokens: the
      text `removeEmail` writes back parses to the list it came from. */
  lemma ParseJoinRoundTrip(xs: seq<string>)
    requires forall i :: 0 <= i < |xs| ==> Clean(xs[i])
    ensures ParseEmailList(Join("\n", xs)) == xs
  {
    if xs == [] {
      ParseEmpty();
    } else {
      SplitJoined(xs);
      TrimClean(xs);
      Seqs.FilterAll(TrimmedTest(), xs);
    }
  }

  function MerchantEmail(m: Merchant): string {
    m.email
  }

  function MerchantEmails(merchants: seq<Merchant>): (r: seq<string>)
    ensures |r| == |merchants|
  {
    Seqs.Map(MerchantEmail, merchants)
  }

  /** `handleMerchantToggle`: a selected address is removed everywhere;
      an unselected one is appended unless the cap is reached. */
  function Toggle(selected: seq<string>, email: string, maxRecipients: int): (r: seq<string>)
    ensures email in selected ==> email !in r && Seqs.IsSubsequence(r, selected)
    ensures email in selected ==>
      forall e :: multiset(r)[e] == if e == email then 0 else multiset(selected)[e]
    ensures email !in selected && |selected| >= maxRecipients ==> r == selected
    ensures email !in selected && |selected| < maxRecipients ==>
      |r| == |selected| + 1 && r[..|selected|] == selected && r[|selected|] == email
    ensures |selected| <= maxRecipients ==> |r| <= maxRecipients
  {
    if email in selected then Seqs.RemoveAll(selected, email)
    else if |selected| >= maxRecipients then selected
    else selected + [email]
  }

  /** Removing an absent element changes nothing. */
  lemma {:induction false} RemoveAbsent(xs: seq<string>, x: string)
    requires x !in xs
    ensures Seqs.RemoveAll(xs, x) == xs
  {
    if xs != [] {
      RemoveAbsent(xs[1..], x);
      assert [xs[0]] + xs[1..] == xs;
    }
  }

  /** Removing `x` from `xs + [x]` removes the appended copy too. */
  lemma {:induction false} RemoveAppended(xs: seq<string>, x: string)
    ensures Seqs.RemoveAll(xs + [x], x) == Seqs.RemoveAll(xs, x)
  {
    if xs == [] {
      assert [x][1..] == [];
    } else {
      RemoveAppended(xs[1..], x);
      assert (xs + [x])[1..] == xs[1..] + [x];
    }
  }

  /** Toggling an unselected address twice, under the cap, gives the
      selection back. */
  lemma ToggleTwice(selected: seq<string>, email: string, maxRecipients: int)
    requires email !in selected && |selected| < maxRecipients
    ensures Toggle(Toggle(selected, email, maxRecipients), email, maxRecipients) == selected
  {
    assert Toggle(selected, email, maxRecipients) == selected + [email];
    assert email in selected + [email];
    RemoveAppended(selected, email);
    RemoveAbsent(selected, email);
  }

  /** The number of merchants whose address is selected
      (`selectedMerchantIds.length`). */
  function SelectedMerchantCount(merchants: seq<Merchant>, selected: seq<string>): (r: nat)
    ensures r <= |merchants|
  {
    |Seqs.Filter((m: Merchant) => m.email in selected, merchants)|
  }

  /** `handleSelectAllMerchants`: nothing while the list loads; when every
      merchant is selected, keep only the other addresses; otherwise the
      other addresses followed by every merchant address, capped. */
  function SelectAll(merchants: Option<seq<Merchant>>, selected: seq<string>, maxRecipients: nat): (r: seq<string>)
    ensures merchants.None? ==> r == selected
    ensures |r| <= |selected| + (if merchants.Some? then |merchants.value| else 0)
    ensures merchants.Some? && SelectedMerchantCount(merchants.value, selected) == |merchants.value| ==>
      r == NonMerchantEmails(merchants.value, selected)
    ensures merchants.Some? && SelectedMerchantCount(merchants.value, selected) != |merchants.value| ==>
      var joined := NonMerchantEmails(merchants.value, selected) + MerchantEmails(merchants.value);
      |r| == Min(maxRecipients, |joined|) && r == joined[..|r|]
  {
    match merchants
    case None => selected
    case Some(ms) =>
      var others := NonMerchantEmails(ms, selected);
      if SelectedMerchantCount(ms, selected) == |ms| then others
      else Seqs.Take(others + MerchantEmails(ms), maxRecipients)
  }

  function Min(a: int, b: int): int {
    if a < b then a else b
  }

  /** `nonMerchantEmails`: the selected addresses that are no merchant's,
      every copy kept, in selection order. */
  function NonMerchantEmails(ms: seq<Merchant>, selected: seq<string>): (r: seq<string>)
    ensures Seqs.IsSubsequence(r, selected)
    ensures forall e :: multiset(r)[e] == if e in MerchantEmails(ms) then 0 else multiset(selected)[e]
  {
    var all := MerchantEmails(ms);
    var p := (e: string) => e !in all;
    Seqs.FilterIsSubsequence(p, selected);
    forall e ensures multiset(Seqs.Filter(p, selected))[e] == if e in all then 0 else multiset(selected)[e] {
      Seqs.FilterCount(p, selected, e);
    }
    Seqs.Filter(p, selected)
  }

  /** `selectedMerchantEmails`: the selected addresses that are some
      merchant's, every copy kept, in selection order; none while the list
      loads. */
  function SelectedMerchantEmails(merchants: Option<seq<Merchant>>, selected: seq<string>): (r: seq<string>)
    ensures Seqs.IsSubsequence(r, selected)
    ensures forall k :: 0 <= k < |r| ==> r[k] in selected
    ensures forall e :: multiset(r)[e]
                     == if merchants.Some? && e in MerchantEmails(merchants.value) then multiset(selected)[e] else 0
  {
    var emails := if merchants.Some? then MerchantEmails(merchants.value) else [];
    var p := (e: string) => e in emails;
    Seqs.FilterIsSubsequence(p, selected);
    forall e ensures multiset(Seqs.Filter(p, selected))[e] == if e in emails then multiset(selected)[e] else 0 {
      Seqs.FilterCount(p, selected, e);
    }
    Seqs.Filter(p, selected)
  }

  /** Deselect-all keeps exactly the non-merchant addresses, in order. */
  lemma DeselectAllKeepsOthers(ms: seq<Merchant>, selected: seq<string>, maxRecipients: nat)
    requires SelectedMerchantCount(ms, selected) == |ms|
    ensures var r := SelectAll(Some(ms), selected, maxRecipients);
      && Seqs.IsSubsequence(r, selected)
      && (forall e :: e in r <==> e in selected && e !in MerchantEmails(ms))
  {
    var r := SelectAll(Some(ms), selected, maxRecipients);
    forall e ensures e in r <==> e in selected && e !in MerchantEmails(ms) {
      assert e in r <==> multiset(r)[e] > 0;
      assert e in selected <==> multiset(selected)[e] > 0;
    }
  }

  /** Select-all, under the cap, ends with every merchant address after the
      other addresses. */
  lemma SelectAllAppendsMerchants(ms: seq<Merchant>, selected: seq<string>, maxRecipients: nat)
    requires SelectedMerchantCount(ms, selected) != |ms|
    ensures var r := SelectAll(Some(ms), selected, maxRecipients);
      var others := NonMerchantEmails(ms, selected);
      |others| + |ms| <= maxRecipients ==> r == others + MerchantEmails(ms)
  {
  }

  /** Over the cap, select-all keeps the other addresses first and cuts the
      merchant addresses: the first `maxRecipients - |others|` of them
      survive, in list order. */
  lemma SelectAllOverCap(ms: seq<Merchant>, selected: seq<string>, maxRecipients: nat)
    requires SelectedMerchantCount(ms, selected) != |ms|
    requires |NonMerchantEmails(ms, selected)| <= maxRecipients
    ensures var others := NonMerchantEmails(ms, selected);
      maxRecipients < |others| + |ms| ==>
        SelectAll(Some(ms), selected, maxRecipients)
        == others + MerchantEmails(ms)[..maxRecipients - |others|]
  {
    var others := NonMerchantEmails(ms, selected);
    var all := MerchantEmails(ms);
    if maxRecipients < |others| + |ms| {
      var r := SelectAll(Some(ms), selected, maxRecipients);
      assert (others + all)[..maxRecipients] == others + all[..maxRecipients - |others|];
    }
  }

  /** `handleCustomEmailsChange`: the selected merchant addresses in
      selection order, then the parsed tokens, capped. */
  function EditCustom(merchants: Option<seq<Merchant>>, selected: seq<string>, value: string, maxRecipients: nat): (r: seq<string>)
    ensures |r| <= maxRecipients
    ensures forall k :: 0 <= k < |r| ==> r[k] in selected || r[k] in ParseEmailList(value)
    ensures var joined := SelectedMerchantEmails(merchants, selected) + ParseEmailList(value);
      |r| == Min(maxRecipients, |joined|) && r == joined[..|r|]
  {
    var kept := SelectedMerchantEmails(merchants, selected);
    var tokens := ParseEmailList(value);
    var r := Seqs.Take(kept + tokens, maxRecipients);
    forall k | 0 <= k < |r| ensures r[k] in selected || r[k] in tokens {
      if k < |kept| {
        assert r[k] == kept[k];
      } else {
        assert r[k] == tokens[k - |kept|];
      }
    }
    r
  }

  /** Under the cap the edit keeps every selected merchant address, then
      every token, in order. */
  lemma EditCustomUnderCap(ms: seq<Merchant>, selected: seq<string>, value: string, maxRecipients: nat)
    ensures var kept := SelectedMerchantEmails(Some(ms), selected);
      |kept| + |ParseEmailList(value)| <= maxRecipients ==>
        EditCustom(Some(ms), selected, value, maxRecipients) == kept + ParseEmailList(value)
  {
  }

  /** Over the cap, typed addresses are dropped before merchant addresses:
      once the selected merchant addresses fill the cap, no token survives. */
  lemma EditCustomOverCap(ms: seq<Merchant>, selected: seq<string>, value: string, maxRecipients: nat)
    ensures var kept := SelectedMerchantEmails(Some(ms), selected);
      maxRecipients <= |kept| ==>
        EditCustom(Some(ms), selected, value, maxRecipients) == kept[..maxRecipients]
  {
    var kept := SelectedMerchantEmails(Some(ms), selected);
    if maxRecipients <= |kept| {
      assert (kept + ParseEmailList(value))[..maxRecipients] == kept[..maxRecipients];
    }
  }

  /** The selector's state. */
  datatype Selector = Selector(selected: seq<string>, customText: string)

  /** `removeEmail`: the address leaves the selection, and, unless it is a
      merchant's, the custom text is rebuilt without it, one per line. */
  function RemoveEmail(merchants: Option<seq<Merchant>>, s: Selector, email: string): (r: Selector)
    ensures email !in r.selected && Seqs.IsSubsequence(r.selected, s.selected)
    ensures forall e :: multiset(r.selected)[e] == if e == email then 0 else multiset(s.selected)[e]
    ensures merchants.Some? && email in MerchantEmails(merchants.value) ==> r.customText == s.customText
  {
    var isMerchant := merchants.Some? && email in MerchantEmails(merchants.value);
    var text := if isMerchant then s.customText
                else Join("\n", Seqs.RemoveAll(ParseEmailList(s.customText), email));
    Selector(Seqs.RemoveAll(s.selected, email), text)
  }

  /** After removing a non-merchant address the custom text parses to the
      old tokens without it. */
  lemma RemoveEmailRewritesText(merchants: Option<seq<Merchant>>, s: Selector, email: string)
    requires !(merchants.Some? && email in MerchantEmails(merchants.value))
    ensures ParseEmailList(RemoveEmail(merchants, s, email).customText)
         == Seqs.RemoveAll(ParseEmailList(s.customText), email)
  {
    var tokens := ParseEmailList(s.customText);
    var kept := Seqs.RemoveAll(tokens, email);
    forall i | 0 <= i < |kept| ensures Clean(kept[i]) {
      assert kept[i] in tokens;
    }
    ParseJoinRoundTrip(kept);
  }

  /** The search test: a case-insensitive substring of the name or the
      address. */
  predicate MatchesSearch(m: Merchant, query: string) {
    Includes(Lower(m.name), Lower(query)) || Includes(Lower(m.email), Lower(query))
  }

  /** `filteredMerchants` */
  function SearchMerchants(merchants: Option<seq<Merchant>>, query: string): (r: seq<Merchant>)
    ensures merchants.None? ==> r == []
    ensures forall k :: 0 <= k < |r| ==> MatchesSearch(r[k], query)
    ensures merchants.Some? ==> Seqs.IsSubsequence(r, merchants.value)
    ensures merchants.Some? ==>
      forall k :: 0 <= k < |merchants.value| && MatchesSearch(merchants.value[k], query) ==> merchants.value[k] in r
    ensures merchants.Some? ==>
      forall m :: multiset(r)[m] == if MatchesSearch(m, query) then multiset(merchants.value)[m] else 0
  {
    match merchants
    case None => []
    case Some(ms) =>
      var p := (m: Merchant) => MatchesSearch(m, query);
      Seqs.FilterIsSubsequence(p, ms);
      Seqs.FilterCounts(p, ms);
      Seqs.Filter(p, ms)
  }

  /** An empty query keeps every merchant. */
  lemma EmptySearchKeepsAll(ms: seq<Merchant>)
    ensures SearchMerchants(Some(ms), "") == ms
  {
    forall k | 0 <= k < |ms| ensures MatchesSearch(ms[k], "") {
      assert StartsWith(Lower(ms[k].name), "");
    }
    Seqs.FilterAll((m: Merchant) => MatchesSearch(m, ""), ms);
  }

  /** The search ignores ASCII case on both sides. */
  lemma SearchIgnoresCase(m: Merchant, query: string)
    ensures MatchesSearch(m, query) <==> MatchesSearch(m, Lower(query))
  {
    LowerTwice(query);
  }

  lemma LowerTwice(s: string)
    ensures Lower(Lower(s)) == Lower(s)
  {
  }
}
