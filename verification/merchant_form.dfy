/** The merchant form of components/merchants/merchant-form.tsx: the
    schema's length rules, the display name suggested from an address, the
    auto-fill on typing an address, and the reset. zod's `.email()` check
    is an input, `isEmail`. */
module MerchantForm {
  import opened Wrappers
  import opened Types
  import opened Text
  import Seqs

  datatype Mode = Create | Edit

  /** The form's fields. */
  datatype Fields = Fields(name: string, email: string, isActive: bool)

  /** `merchantSchema`: a name of 1 to 255 characters, an address of at
      most 255 that zod calls an email. */
  predicate SchemaAccepts(f: Fields, isEmail: bool) {
    1 <= |f.name| <= 255 && isEmail && |f.email| <= 255
  }

  /** A character of `\w`. */
  predicate WordChar(c: char) {
    ('a' <= c <= 'z') || ('A' <= c <= 'Z') || ('0' <= c <= '9') || c == '_'
  }

  /** `\b\w` matches at `i`: a word character with no word character
      before it. */
  predicate WordStart(s: string, i: int)
    requires 0 <= i < |s|
  {
    WordChar(s[i]) && (i == 0 || !WordChar(s[i - 1]))
  }

  function SpaceForPunct(c: char): char {
    if c in {'.', '_', '-'} then ' ' else c
  }

  /** `.replace(/[._-]/g, " ")` */
  function SpacePunctuation(s: string): (r: string)
    ensures |r| == |s|
    ensures forall i :: 0 <= i < |s| ==> r[i] == (if s[i] in {'.', '_', '-'} then ' ' else s[i])
    ensures forall i :: 0 <= i < |r| ==> r[i] !in {'.', '_', '-'}
  {
    Seqs.Map(SpaceForPunct, s)
  }

  /** `.replace(/\b\w/g, l => l.toUpperCase())`, scanning left to right
      with whether the previous character was a word character. */
  function CapitalizeFrom(s: string, afterWord: bool): (r: string)
    ensures |r| == |s|
    decreases |s|
  {
    if s == [] then []
    else
      var c := if WordChar(s[0]) && !afterWord then UpperChar(s[0]) else s[0];
      [c] + CapitalizeFrom(s[1..], WordChar(s[0]))
  }

  function Capitalize(s: string): (r: string)
    ensures |r| == |s|
  {
    CapitalizeFrom(s, false)
  }

  /** Exactly the characters at word starts are upper-cased. */
  lemma {:induction false} CapitalizeFromPointwise(s: string, afterWord: bool, i: int)
    requires 0 <= i < |s|
    ensures CapitalizeFrom(s, afterWord)[i] ==
      if WordChar(s[i]) && (if i == 0 then !afterWord else !WordChar(s[i - 1])) then UpperChar(s[i]) else s[i]
    decreases |s|
  {
    if i > 0 {
      CapitalizeFromPointwise(s[1..], WordChar(s[0]), i - 1);
      assert s[1..][i - 1] == s[i];
      if i > 1 {
        assert s[1..][i - 2] == s[i - 1];
      }
    }
  }

  lemma CapitalizePointwise(s: string, i: int)
    requires 0 <= i < |s|
    ensures Capitalize(s)[i] == if WordStart(s, i) then UpperChar(s[i]) else s[i]
  {
    CapitalizeFromPointwise(s, false, i);
  }

  /** Upper-casing never produces the replaced punctuation. */
  lemma CapitalizeKeepsNoPunct(s: string)
    requires forall i :: 0 <= i < |s| ==> s[i] !in {'.', '_', '-'}
    ensures forall i :: 0 <= i < |s| ==> Capitalize(s)[i] !in {'.', '_', '-'}
  {
    forall i | 0 <= i < |s| ensures Capitalize(s)[i] !in {'.', '_', '-'} {
      CapitalizePointwise(s, i);
    }
  }

  /** `email.split("@")[0]`: the text before the first `@`. */
  function LocalPart(email: string): (r: string)
    ensures '@' !in r
    ensures StartsWith(email, r)
    ensures |r| < |email| ==> email[|r|] == '@'
  {
    var i := FirstAt(email);
    email[..i]
  }

  function FirstAt(s: string): (r: nat)
    ensures r <= |s| && '@' !in s[..r]
    ensures r < |s| ==> s[r] == '@'
  {
    if s == [] || s[0] == '@' then 0
    else
      var k := FirstAt(s[1..]);
      assert s[..k + 1] == [s[0]] + s[1..][..k];
      k + 1
  }

  /** `generateNameFromEmail` */
  function GenerateName(email: string): (r: string)
    ensures !Includes(email, "@") ==> r == ""
    ensures Includes(email, "@") ==> r == Trim(Capitalize(SpacePunctuation(LocalPart(email))))
    ensures forall i :: 0 <= i < |r| ==> r[i] !in {'.', '_', '-', '@'}
    ensures r == [] || (!IsSpace(r[0]) && !IsSpace(r[|r| - 1]))
  {
    if !Includes(email, "@") then ""
    else
      NameOfLocal(LocalPart(email));
      Trim(Capitalize(SpacePunctuation(LocalPart(email))))
  }

  /** The name made from a local part has none of the replaced characters
      and no `@`. */
  lemma NameOfLocal(local: string)
    requires '@' !in local
    ensures var r := Trim(Capitalize(SpacePunctuation(local)));
      forall i :: 0 <= i < |r| ==> r[i] !in {'.', '_', '-', '@'}
  {
    var spaced := SpacePunctuation(local);
    var capital := Capitalize(spaced);
    CapitalizeKeepsNoPunct(spaced);
    forall i | 0 <= i < |capital| ensures capital[i] != '@' {
      CapitalizePointwise(spaced, i);
    }
    var r := Trim(capital);
    forall i | 0 <= i < |r| ensures r[i] !in {'.', '_', '-', '@'} {
      var j :| 0 <= j < |capital| && capital[j] == r[i];
    }
  }

  predicate LowerWord(w: string) {
    w != [] && forall i :: 0 <= i < |w| ==> 'a' <= w[i] <= 'z'
  }

  /** The word with its first letter upper-cased. */
  function TitleWord(w: string): string
    requires w != []
  {
    [UpperChar(w[0])] + w[1..]
  }

  /** A local part of two lower-case words joined by `.`, `_` or `-`
      becomes the two words capitalised, with one space between them:
      `john.doe@x.com` gives `John Doe`. */
  lemma JoinedWordsName(a: string, sep: char, b: string, domain: string)
    requires LowerWord(a) && LowerWord(b) && sep in {'.', '_', '-'}
    ensures GenerateName(a + [sep] + b + "@" + domain) == TitleWord(a) + " " + TitleWord(b)
  {
    JoinedLocalPart(a, sep, b, domain);
    JoinedSpaced(a, sep, b);
    JoinedCapitalized(a, b);
    var capital := TitleWord(a) + " " + TitleWord(b);
    assert capital[0] == UpperChar(a[0]);
    assert capital[|capital| - 1] == TitleWord(b)[|b| - 1];
    NameFromParts(a + [sep] + b + "@" + domain, a + [sep] + b, a + " " + b, capital);
  }

  lemma JoinedLocalPart(a: string, sep: char, b: string, domain: string)
    requires LowerWord(a) && LowerWord(b) && sep in {'.', '_', '-'}
    ensures Includes(a + [sep] + b + "@" + domain, "@")
    ensures LocalPart(a + [sep] + b + "@" + domain) == a + [sep] + b
  {
    var local := a + [sep] + b;
    forall i | 0 <= i < |local| ensures local[i] != '@' {
      if i < |a| {
        assert local[i] == a[i];
      } else if i > |a| {
        assert local[i] == b[i - |a| - 1];
      }
    }
    IncludesAt(local, domain);
    FirstAtAfter(local, domain);
  }

  lemma JoinedSpaced(a: string, sep: char, b: string)
    requires sep in {'.', '_', '-'}
    requires LowerWord(a) && LowerWord(b)
    ensures SpacePunctuation(a + [sep] + b) == a + " " + b
  {
    var local, spaced := a + [sep] + b, a + " " + b;
    forall i | 0 <= i < |local| ensures SpacePunctuation(local)[i] == spaced[i] {
      if i < |a| {
        assert local[i] == a[i] && spaced[i] == a[i];
      } else if i > |a| {
        assert local[i] == b[i - |a| - 1] && spaced[i] == b[i - |a| - 1];
      }
    }
  }

  lemma JoinedCapitalized(a: string, b: string)
    requires LowerWord(a) && LowerWord(b)
    ensures Capitalize(a + " " + b) == TitleWord(a) + " " + TitleWord(b)
  {
    var spaced, capital := a + " " + b, TitleWord(a) + " " + TitleWord(b);
    forall i | 0 <= i < |spaced| ensures Capitalize(spaced)[i] == capital[i] {
      CapitalizePointwise(spaced, i);
      if i < |a| {
        assert spaced[i] == a[i];
        if i > 0 {
          assert spaced[i - 1] == a[i - 1];
        }
      } else if i > |a| {
        assert spaced[i] == b[i - |a| - 1];
        if i > |a| + 1 {
          assert spaced[i - 1] == b[i - |a| - 2];
        }
      }
    }
  }

  /** The name, step by step. */
  lemma NameFromParts(email: string, local: string, spaced: string, capital: string)
    requires Includes(email, "@") && LocalPart(email) == local
    requires SpacePunctuation(local) == spaced && Capitalize(spaced) == capital
    requires capital != [] && !IsSpace(capital[0]) && !IsSpace(capital[|capital| - 1])
    ensures GenerateName(email) == capital
  {
    TrimKeepsSolidEnds(capital);
  }

  /** Only the text before the first `@` matters. */
  lemma NameIgnoresDomain(local: string, domain1: string, domain2: string)
    requires '@' !in local
    ensures GenerateName(local + "@" + domain1) == GenerateName(local + "@" + domain2)
  {
    IncludesAt(local, domain1);
    IncludesAt(local, domain2);
    FirstAtAfter(local, domain1);
    FirstAtAfter(local, domain2);
  }

  lemma {:induction false} FirstAtAfter(local: string, rest: string)
    requires '@' !in local
    ensures LocalPart(local + "@" + rest) == local
  {
    var s := local + "@" + rest;
    assert s[|local|] == '@';
    assert s[..|local|] == local;
  }

  lemma {:induction false} IncludesAt(local: string, rest: string)
    ensures Includes(local + "@" + rest, "@")
    decreases |local|
  {
    var s := local + "@" + rest;
    if local == [] {
      assert s[..1] == "@";
    } else {
      assert s[1..] == local[1..] + "@" + rest;
      IncludesAt(local[1..], rest);
    }
  }

  /** `handleEmailChange`: the suggested name to fill in, if any. */
  function AutoFill(mode: Mode, currentName: string, email: string): (r: Option<string>)
    ensures r.Some? ==> mode == Create && currentName == "" && email != "" && r.value != ""
    ensures r.Some? ==> r.value == GenerateName(email)
    ensures mode == Create && currentName == "" && email != "" && GenerateName(email) != "" ==> r.Some?
  {
    if mode == Create && currentName == "" && email != "" then
      var suggested := GenerateName(email);
      if suggested != "" then Some(suggested) else None
    else None
  }

  /** The form never overwrites a name the user typed, nor an edited
      merchant's name. */
  lemma AutoFillOnlyBlankCreate(mode: Mode, currentName: string, email: string)
    requires mode == Edit || currentName != ""
    ensures AutoFill(mode, currentName, email).None?
  {
  }

  /** `handleReset`, and the form's default values. */
  function Reset(mode: Mode, initial: Option<Merchant>): (r: Fields)
    ensures mode == Create ==> r == Fields("", "", true)
    ensures mode == Edit && initial.Some? ==>
      r == Fields(initial.value.name, initial.value.email, initial.value.isActive)
    ensures mode == Edit && initial.None? ==> r == Fields("", "", true)
  {
    match mode
    case Create => Fields("", "", true)
    case Edit =>
      match initial
      case Some(m) => Fields(m.name, m.email, m.isActive)
      case None => Fields("", "", true)
  }

  /** A freshly reset create form is rejected: its name is empty. */
  lemma ResetCreateIsIncomplete(initial: Option<Merchant>, isEmail: bool)
    ensures !SchemaAccepts(Reset(Create, initial), isEmail)
  {
  }
}
