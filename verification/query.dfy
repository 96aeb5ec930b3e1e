/**
  The repository search filter and its translation into the hosting API's
  search syntax (`SearchQuery.ToGithubQuery` in model/query.go).

  The builder writes, in a fixed order, `is:public` (when public repositories
  are requested) and one `owner:`, `license:` and `language:` qualifier per
  non-empty field, each followed by one space, and trims white space from both
  ends of what it wrote. Field values are copied verbatim: nothing is escaped
  or validated.
 */
module Query {
  import opened GoStrings

  datatype SearchQuery = SearchQuery(owner: string, license: string, language: string)

  const PublicQualifier: string := "is:public"
  const OwnerKey: string := "owner:"
  const LicenseKey: string := "license:"
  const LanguageKey: string := "language:"

  /** One conditional `WriteString(key + value + " ")` of the builder (model/query.go writes each qualifier this way). */
  function WriteQualifier(written: string, key: string, value: string): string {
    if value != "" then written + key + value + " " else written
  }

  /**
    The builder's contents just before `strings.TrimSpace` is applied. It is
    empty exactly when there is nothing to write; otherwise it starts with a
    letter and ends in the space written after the last qualifier.
   */
  function BuilderContents(q: SearchQuery, filterPublicRepositories: bool): (b: string)
    ensures b == "" <==> (!filterPublicRepositories && q.owner == "" && q.license == "" && q.language == "")
    ensures b != "" ==> !IsSpace(b[0]) && b[|b| - 1] == ' '
  {
    var start := if filterPublicRepositories then PublicQualifier + " " else "";
    WriteQualifier(WriteQualifier(WriteQualifier(start, OwnerKey, q.owner), LicenseKey, q.license), LanguageKey, q.language)
  }

  /**
    `ToGithubQuery`: the builder's contents, trimmed. The result never starts
    or ends with white space, starts with `is:public` whenever public
    repositories are requested, and is empty exactly when there is nothing to
    write.
   */
  function ToGithubQuery(q: SearchQuery, filterPublicRepositories: bool): (r: string)
    ensures Trimmed(r)
    ensures filterPublicRepositories ==> HasPrefix(r, PublicQualifier)
    ensures r == "" <==> (!filterPublicRepositories && q.owner == "" && q.license == "" && q.language == "")
  {
    var b := BuilderContents(q, filterPublicRepositories);
    TrimSpaceEmptyIffAllSpace(b);
    if filterPublicRepositories then
      assert b == PublicQualifier + b[|PublicQualifier|..];
      TrimSpaceKeepsPrefix(PublicQualifier, b[|PublicQualifier|..]);
      TrimSpace(b)
    else
      TrimSpace(b)
  }

  // ---------------------------------------------------------------------------
  // Reference definition: the qualifiers joined by single spaces.
  // ---------------------------------------------------------------------------

  /** Appends the qualifier `key + value` when `value` is non-empty. */
  function AddQualifier(fs: seq<string>, key: string, value: string): seq<string> {
    if value != "" then fs + [key + value] else fs
  }

  /** The qualifiers the query consists of, in the order the builder writes them. */
  function Fragments(q: SearchQuery, filterPublicRepositories: bool): seq<string> {
    var start := if filterPublicRepositories then [PublicQualifier] else [];
    AddQualifier(AddQualifier(AddQualifier(start, OwnerKey, q.owner), LicenseKey, q.license), LanguageKey, q.language)
  }

  /** The text of `fs` joined by single spaces, with one more space at the end (empty for no fragments). */
  function SpaceTerminated(fs: seq<string>): string {
    if fs == [] then "" else Join(fs, " ") + " "
  }

  /** One conditional write of the builder extends the written text by exactly the added qualifier. */
  lemma WriteMatchesAdd(written: string, fs: seq<string>, key: string, value: string)
    requires written == SpaceTerminated(fs)
    ensures WriteQualifier(written, key, value) == SpaceTerminated(AddQualifier(fs, key, value))
  {
    if value != "" && fs != [] {
      JoinAppend(fs, key + value, " ");
    }
  }

  /** The builder's contents are the fragments, each followed by one space. */
  lemma BuilderIsSpaceTerminatedFragments(q: SearchQuery, filterPublicRepositories: bool)
    ensures BuilderContents(q, filterPublicRepositories) == SpaceTerminated(Fragments(q, filterPublicRepositories))
  {
    var start := if filterPublicRepositories then [PublicQualifier] else [];
    var written := if filterPublicRepositories then PublicQualifier + " " else "";
    assert written == SpaceTerminated(start);
    WriteMatchesAdd(written, start, OwnerKey, q.owner);
    var fs1 := AddQualifier(start, OwnerKey, q.owner);
    var w1 := WriteQualifier(written, OwnerKey, q.owner);
    WriteMatchesAdd(w1, fs1, LicenseKey, q.license);
    var fs2 := AddQualifier(fs1, LicenseKey, q.license);
    var w2 := WriteQualifier(w1, LicenseKey, q.license);
    WriteMatchesAdd(w2, fs2, LanguageKey, q.language);
  }

  /** Every fragment starts with one of the four fixed keys, so with a letter. */
  lemma FragmentsStartWithLetter(q: SearchQuery, filterPublicRepositories: bool)
    ensures forall f :: f in Fragments(q, filterPublicRepositories) ==> f != [] && !IsSpace(f[0])
  {
  }

  /**
    For every input, the query is the fragments joined by single spaces, with
    trailing white space removed (white space can only come from the end of
    the last field value).
   */
  lemma QueryIsJoinedFragments(q: SearchQuery, filterPublicRepositories: bool)
    ensures ToGithubQuery(q, filterPublicRepositories) == TrimTrailingSpace(Join(Fragments(q, filterPublicRepositories), " "))
  {
    var fs := Fragments(q, filterPublicRepositories);
    BuilderIsSpaceTerminatedFragments(q, filterPublicRepositories);
    if fs != [] {
      FragmentsStartWithLetter(q, filterPublicRepositories);
      JoinStartsWithFirst(fs, " ");
      TrimSpaceOfSpaceTerminated(Join(fs, " "));
    }
  }

  /** When no field value ends in white space, neither does the last fragment. */
  lemma CleanLastFragment(q: SearchQuery, filterPublicRepositories: bool)
    requires NoTrailingSpace(q.owner) && NoTrailingSpace(q.license) && NoTrailingSpace(q.language)
    requires Fragments(q, filterPublicRepositories) != []
    ensures var fs := Fragments(q, filterPublicRepositories);
      fs[|fs| - 1] != [] && NoTrailingSpace(fs[|fs| - 1])
  {
  }

  /** When no field value ends in white space, the query is exactly the fragments joined by single spaces. */
  lemma CleanQueryIsJoinedFragments(q: SearchQuery, filterPublicRepositories: bool)
    requires NoTrailingSpace(q.owner) && NoTrailingSpace(q.license) && NoTrailingSpace(q.language)
    ensures ToGithubQuery(q, filterPublicRepositories) == Join(Fragments(q, filterPublicRepositories), " ")
  {
    var fs := Fragments(q, filterPublicRepositories);
    QueryIsJoinedFragments(q, filterPublicRepositories);
    if fs != [] {
      CleanLastFragment(q, filterPublicRepositories);
      JoinOfCleanLast(fs, " ");
    }
  }

  // ---------------------------------------------------------------------------
  // Which fragments are present, and in which order.
  // ---------------------------------------------------------------------------

  /** The fragments are exactly the requested qualifiers. */
  lemma FragmentMembers(q: SearchQuery, filterPublicRepositories: bool, f: string)
    ensures f in Fragments(q, filterPublicRepositories)
        <==> || (f == PublicQualifier && filterPublicRepositories)
             || (f == OwnerKey + q.owner && q.owner != "")
             || (f == LicenseKey + q.license && q.license != "")
             || (f == LanguageKey + q.language && q.language != "")
  {
  }

  /** Each qualifier is present exactly when its field is non-empty (or, for `is:public`, when requested). */
  lemma FragmentPresence(q: SearchQuery, filterPublicRepositories: bool)
    ensures PublicQualifier in Fragments(q, filterPublicRepositories) <==> filterPublicRepositories
    ensures OwnerKey + q.owner in Fragments(q, filterPublicRepositories) <==> q.owner != ""
    ensures LicenseKey + q.license in Fragments(q, filterPublicRepositories) <==> q.license != ""
    ensures LanguageKey + q.language in Fragments(q, filterPublicRepositories) <==> q.language != ""
  {
    KeyRanks(q.owner);
    KeyRanks(q.license);
    KeyRanks(q.language);
    FragmentMembers(q, filterPublicRepositories, PublicQualifier);
    FragmentMembers(q, filterPublicRepositories, OwnerKey + q.owner);
    FragmentMembers(q, filterPublicRepositories, LicenseKey + q.license);
    FragmentMembers(q, filterPublicRepositories, LanguageKey + q.language);
  }

  /** The position of a qualifier in the builder's fixed write order. */
  function QualifierRank(f: string): nat {
    if HasPrefix(f, PublicQualifier) then 0
    else if HasPrefix(f, OwnerKey) then 1
    else if HasPrefix(f, LicenseKey) then 2
    else 3
  }

  /** Each key puts its qualifier at its own position in the write order, whatever the value. */
  lemma KeyRanks(v: string)
    ensures QualifierRank(PublicQualifier) == 0
    ensures QualifierRank(OwnerKey + v) == 1
    ensures QualifierRank(LicenseKey + v) == 2
    ensures QualifierRank(LanguageKey + v) == 3
  {
    var o, li, la := OwnerKey + v, LicenseKey + v, LanguageKey + v;
    assert o[..|OwnerKey|] == OwnerKey;
    assert li[..|LicenseKey|] == LicenseKey;
    assert la[..|LanguageKey|] == LanguageKey;
    assert !HasPrefix(o, PublicQualifier) by { assert o[0] == 'o'; }
    assert !HasPrefix(li, PublicQualifier) by { assert li[0] == 'l'; }
    assert !HasPrefix(li, OwnerKey) by { assert li[0] == 'l'; }
    assert !HasPrefix(la, PublicQualifier) by { assert la[0] == 'l'; }
    assert !HasPrefix(la, OwnerKey) by { assert la[0] == 'l'; }
    assert !HasPrefix(la, LicenseKey) by { assert la[1] == 'a'; }
  }

  /** The fragments come in the order `is:public`, owner, license, language, each at most once. */
  lemma FragmentsInWriteOrder(q: SearchQuery, filterPublicRepositories: bool)
    ensures var fs := Fragments(q, filterPublicRepositories);
      forall i, j :: 0 <= i < j < |fs| ==> QualifierRank(fs[i]) < QualifierRank(fs[j])
  {
    KeyRanks(q.owner);
    KeyRanks(q.license);
    KeyRanks(q.language);
  }

  /** The number of fragments is the number of qualifiers that are written. */
  lemma FragmentCount(q: SearchQuery, filterPublicRepositories: bool)
    ensures |Fragments(q, filterPublicRepositories)|
      == (if filterPublicRepositories then 1 else 0) + (if q.owner != "" then 1 else 0)
       + (if q.license != "" then 1 else 0) + (if q.language != "" then 1 else 0)
  {
  }

  // ---------------------------------------------------------------------------
  // Properties of the final query string.
  // ---------------------------------------------------------------------------

  /** Trimming the query again changes nothing. */
  lemma QueryTrimIdempotent(q: SearchQuery, filterPublicRepositories: bool)
    ensures TrimSpace(ToGithubQuery(q, filterPublicRepositories)) == ToGithubQuery(q, filterPublicRepositories)
  {
    TrimSpaceFixesExactlyTrimmed(ToGithubQuery(q, filterPublicRepositories));
  }

  /** With no filter at all, the query is the empty string. */
  lemma EmptyQuery()
    ensures ToGithubQuery(SearchQuery("", "", ""), false) == ""
  {
  }

  /** With clean field values, each requested qualifier appears verbatim in the query. */
  lemma QualifiersAppearVerbatim(q: SearchQuery, filterPublicRepositories: bool)
    requires NoTrailingSpace(q.owner) && NoTrailingSpace(q.license) && NoTrailingSpace(q.language)
    ensures filterPublicRepositories ==> Contains(ToGithubQuery(q, filterPublicRepositories), PublicQualifier)
    ensures q.owner != "" ==> Contains(ToGithubQuery(q, filterPublicRepositories), OwnerKey + q.owner)
    ensures q.license != "" ==> Contains(ToGithubQuery(q, filterPublicRepositories), LicenseKey + q.license)
    ensures q.language != "" ==> Contains(ToGithubQuery(q, filterPublicRepositories), LanguageKey + q.language)
  {
    var fs := Fragments(q, filterPublicRepositories);
    CleanQueryIsJoinedFragments(q, filterPublicRepositories);
    FragmentPresence(q, filterPublicRepositories);
    forall f | f in fs ensures Contains(Join(fs, " "), f) {
      JoinContainsMember(fs, " ", f);
    }
  }

  lemma SpellOut(owner: string, license: string, language: string)
    ensures PublicQualifier + " " + (OwnerKey + owner) + " " + (LicenseKey + license) + " " + (LanguageKey + language)
         == "is:public owner:" + owner + " license:" + license + " language:" + language
  {
    assert PublicQualifier + " " + OwnerKey == "is:public owner:";
    assert " " + LicenseKey == " license:";
    assert " " + LanguageKey == " language:";
  }

  /** All filters set, public repositories requested: the values are inserted verbatim in the fixed order. */
  lemma FullQueryVerbatim(owner: string, license: string, language: string)
    requires owner != "" && license != "" && language != ""
    requires NoTrailingSpace(owner) && NoTrailingSpace(license) && NoTrailingSpace(language)
    ensures ToGithubQuery(SearchQuery(owner, license, language), true)
         == "is:public owner:" + owner + " license:" + license + " language:" + language
  {
    var q := SearchQuery(owner, license, language);
    var fs := [PublicQualifier, OwnerKey + owner, LicenseKey + license, LanguageKey + language];
    assert Fragments(q, true) == fs by {
      assert AddQualifier([PublicQualifier], OwnerKey, owner) == fs[..2];
      assert AddQualifier(fs[..2], LicenseKey, license) == fs[..3];
    }
    CleanQueryIsJoinedFragments(q, true);
    JoinFour(fs[0], fs[1], fs[2], fs[3]);
    SpellOut(owner, license, language);
  }
}
