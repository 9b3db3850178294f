/** The user entity: validated construction with name and email
    normalisation, and the email pattern `^[^\s@]+@[^\s@]+\.[^\s@]+$`. */
module UserEntity {
  import opened Common
  import opened Errors
  import opened Text
  import opened ValueObjects

  const MaxNameLength: nat := 100

  const NameRequired := "Name is required"
  const NameTooLong := "Name must be 100 characters or fewer"
  const EmailRequired := "Email is required"
  const EmailMalformed := "Email must be a valid email address"

  /** `UserProps`. Dates are instants in milliseconds. */
  datatype UserProps = UserProps(
    id: string,
    name: string,
    email: string,
    role: UserRole,
    createdAt: nat,
    updatedAt: nat)

  /** The arguments of `User.create`; `None` is an omitted role. */
  datatype CreateParams = CreateParams(name: string, email: string, role: Option<UserRole>)

  /** A character of a `[^\s@]` class. */
  predicate Plain(c: char) {
    !IsSpace(c) && c != '@'
  }

  /** One `[^\s@]+` run of the pattern. */
  predicate Segment(s: string) {
    |s| > 0 && forall k :: 0 <= k < |s| ==> Plain(s[k])
  }

  /** The language of the pattern, stated by its structure: three runs
      joined by '@' and '.'. */
  ghost predicate MatchesEmailPattern(s: string) {
    exists a, b, c :: Segment(a) && Segment(b) && Segment(c) && s == a + "@" + b + "." + c
  }

  /** `s` is the pattern with its '@' at position `i` and its '.' at `j`. */
  predicate SplitsAt(s: string, i: int, j: int) {
    && 0 < i && i + 1 < j && j + 1 < |s|
    && s[i] == '@' && s[j] == '.'
    && Segment(s[..i]) && Segment(s[i + 1..j]) && Segment(s[j + 1..])
  }

  /** The test `emailRegex.test(s)` performs: the pattern's '@' and '.'
      chosen by position. */
  predicate IsEmailShaped(s: string) {
    exists i, j | 0 < i < j < |s| :: SplitsAt(s, i, j)
  }

  lemma SplitGivesPattern(s: string, i: int, j: int)
    requires SplitsAt(s, i, j)
    ensures MatchesEmailPattern(s)
  {
    var a, b, c := s[..i], s[i + 1..j], s[j + 1..];
    assert s == a + "@" + b + "." + c;
  }

  lemma PatternGivesSplit(s: string, a: string, b: string, c: string)
    requires Segment(a) && Segment(b) && Segment(c) && s == a + "@" + b + "." + c
    ensures SplitsAt(s, |a|, |a| + 1 + |b|)
  {
    var i, j := |a|, |a| + 1 + |b|;
    assert s[..i] == a;
    assert s[i + 1..j] == b;
    assert s[j + 1..] == c;
  }

  /** The position test decides exactly the language of the pattern. */
  lemma EmailTestDecidesPattern(s: string)
    ensures IsEmailShaped(s) <==> MatchesEmailPattern(s)
  {
    if IsEmailShaped(s) {
      var i, j :| 0 < i < j < |s| && SplitsAt(s, i, j);
      SplitGivesPattern(s, i, j);
    }
    if MatchesEmailPattern(s) {
      var a, b, c :| Segment(a) && Segment(b) && Segment(c) && s == a + "@" + b + "." + c;
      PatternGivesSplit(s, a, b, c);
    }
  }

  /** Every character of `s[lo..hi]` is plain exactly when the slice is a
      run (given it is non-empty). */
  lemma SegmentOfSlice(s: string, lo: int, hi: int)
    requires 0 <= lo < hi <= |s|
    ensures Segment(s[lo..hi]) <==> forall k :: lo <= k < hi ==> Plain(s[k])
  {
    if Segment(s[lo..hi]) {
      forall k | lo <= k < hi ensures Plain(s[k]) {
        assert s[k] == s[lo..hi][k - lo];
      }
    }
  }

  /** The pattern in plain words: no whitespace, exactly one '@', something
      before it, and after it a '.' that is neither the first nor the last
      character of the domain part. */
  predicate EmailInWords(s: string) {
    && (forall k :: 0 <= k < |s| ==> !IsSpace(s[k]))
    && exists i :: 0 < i < |s| && s[i] == '@'
                   && (forall k :: 0 <= k < |s| && s[k] == '@' ==> k == i)
                   && exists j :: i + 1 < j < |s| - 1 && s[j] == '.'
  }

  lemma SplitInWords(s: string, i: int, j: int)
    requires SplitsAt(s, i, j)
    ensures EmailInWords(s)
  {
    SegmentOfSlice(s, 0, i);
    SegmentOfSlice(s, i + 1, j);
    SegmentOfSlice(s, j + 1, |s|);
    assert s[..i] == s[0..i] && s[j + 1..] == s[j + 1..|s|];
    assert forall k :: 0 <= k < |s| && k != i ==> Plain(s[k]);
  }

  lemma WordsGiveSplit(s: string, i: int, j: int)
    requires forall k :: 0 <= k < |s| ==> !IsSpace(s[k])
    requires 0 < i && i + 1 < j && j + 1 < |s| && s[i] == '@' && s[j] == '.'
    requires forall k :: 0 <= k < |s| && s[k] == '@' ==> k == i
    ensures SplitsAt(s, i, j)
  {
    assert forall k :: 0 <= k < |s| && k != i ==> Plain(s[k]);
    SegmentOfSlice(s, 0, i);
    SegmentOfSlice(s, i + 1, j);
    SegmentOfSlice(s, j + 1, |s|);
    assert s[..i] == s[0..i] && s[j + 1..] == s[j + 1..|s|];
  }

  lemma EmailShapeInWords(s: string)
    ensures IsEmailShaped(s) <==> EmailInWords(s)
  {
    if IsEmailShaped(s) {
      var i, j :| 0 < i < j < |s| && SplitsAt(s, i, j);
      SplitInWords(s, i, j);
    }
    if EmailInWords(s) {
      var i :| 0 < i < |s| && s[i] == '@'
               && (forall k :: 0 <= k < |s| && s[k] == '@' ==> k == i)
               && exists j :: i + 1 < j < |s| - 1 && s[j] == '.';
      var j :| i + 1 < j < |s| - 1 && s[j] == '.';
      WordsGiveSplit(s, i, j);
    }
  }

  /** `User.create`, with the generated id and the current time as inputs.
      The name is checked before the email. */
  function Create(p: CreateParams, id: string, now: nat): (r: Result<UserProps>)
    ensures r.Err? <==> IsBlank(p.name) || |Trim(p.name)| > MaxNameLength
                        || IsBlank(p.email) || !IsEmailShaped(Trim(p.email))
    ensures r.Err? ==> r.error == Invalid(
                         if IsBlank(p.name) then NameRequired
                         else if |Trim(p.name)| > MaxNameLength then NameTooLong
                         else if IsBlank(p.email) then EmailRequired
                         else EmailMalformed)
    ensures r.Ok? ==> && r.value.id == id
                      && r.value.name == Trim(p.name)
                      && r.value.email == ToLower(Trim(p.email))
                      && r.value.role == p.role.GetOr(Member)
                      && r.value.createdAt == now && r.value.updatedAt == now
  {
    TrimEmptyIffBlank(p.name);
    TrimEmptyIffBlank(p.email);
    if |Trim(p.name)| == 0 then Err(Invalid(NameRequired))
    else if |Trim(p.name)| > MaxNameLength then Err(Invalid(NameTooLong))
    else if |Trim(p.email)| == 0 then Err(Invalid(EmailRequired))
    else if !IsEmailShaped(Trim(p.email)) then Err(Invalid(EmailMalformed))
    else Ok(UserProps(
      id := id,
      name := Trim(p.name),
      email := ToLower(Trim(p.email)),
      role := p.role.GetOr(Member),
      createdAt := now,
      updatedAt := now))
  }

  /** Lower-casing keeps the shape of an address: whitespace, '@' and '.'
      are not letters. */
  lemma LowerKeepsEmailShape(s: string)
    requires IsEmailShaped(s)
    ensures IsEmailShaped(ToLower(s))
  {
    var l := ToLower(s);
    var i, j :| 0 < i < j < |s| && SplitsAt(s, i, j);
    SplitInWords(s, i, j);
    assert forall k :: 0 <= k < |s| ==> (l[k] == '@' <==> s[k] == '@') && (IsSpace(l[k]) <==> IsSpace(s[k]));
    WordsGiveSplit(l, i, j);
  }

  /** A user `Create` accepts has a stored email that is trimmed, already
      lower-case and still of the accepted shape, and a trimmed non-empty
      name of at most 100 characters. */
  lemma CreatedUserIsNormalised(p: CreateParams, id: string, now: nat)
    requires Create(p, id, now).Ok?
    ensures var u := Create(p, id, now).value;
      && u.name != [] && IsTrimmed(u.name) && |u.name| <= MaxNameLength
      && IsTrimmed(u.email) && ToLower(u.email) == u.email
      && IsEmailShaped(u.email)
  {
    TrimEmptyIffBlank(p.name);
    ToLowerKeepsTrimmed(Trim(p.email));
    ToLowerIdempotent(Trim(p.email));
    LowerKeepsEmailShape(Trim(p.email));
  }

  /** `toJSON` returns the fields the accessors return. */
  function ToJSON(u: UserProps): (j: UserProps)
    ensures j.id == u.id && j.name == u.name && j.email == u.email
    ensures j.role == u.role && j.createdAt == u.createdAt && j.updatedAt == u.updatedAt
  {
    u
  }
}
