/**
 The stand-alone authorisation helpers (`AuthUtils` and the functions beside it): strict role checks,
 the role-to-permission table, token lifetime arithmetic over a decoded payload and the current
 time, and the password and email validators.
 */
module AuthUtils {
  import opened Wrappers
  import opened Session
  import opened Text

  /** `AuthUtils.hasRole`: `user?.role === role`, with no admin override. */
  predicate HasRole(user: Option<User>, role: Role)
    ensures HasRole(user, role) <==> HasAnyRole(user, [role])
  {
    user.Some? && user.value.role == role
  }

  /** `AuthUtils.hasAnyRole`: false without a user, otherwise membership of the user's role; an
      admin passes only a list that names admin. */
  predicate HasAnyRole(user: Option<User>, roles: seq<Role>)
    ensures user.None? || roles == [] ==> !HasAnyRole(user, roles)
    ensures HasAnyRole(user, roles) ==> user.value.role in roles
  {
    user.Some? && user.value.role in roles
  }

  /** `hasAnyRole` is the disjunction of `hasRole` over the list. */
  lemma HasAnyRoleIsSome(user: Option<User>, roles: seq<Role>)
    ensures HasAnyRole(user, roles) <==> exists i :: 0 <= i < |roles| && HasRole(user, roles[i])
  {
    if HasAnyRole(user, roles) {
      var i :| 0 <= i < |roles| && roles[i] == user.value.role;
      assert HasRole(user, roles[i]);
    }
  }

  /** The context's `hasRole` (admin override) against this strict one: it holds exactly when the
      strict check does or the user is an admin. */
  lemma ContextRoleCheckAddsAdmin(user: Option<User>, role: Role)
    ensures Session.HasRole(user, RoleName(role)) <==> HasRole(user, role) || HasRole(user, Admin)
  {
    if user.Some? && RoleName(user.value.role) == RoleName(role) {
      RoleNameInjective(user.value.role, role);
    }
  }

  lemma RoleNameInjective(a: Role, b: Role)
    requires RoleName(a) == RoleName(b)
    ensures a == b
  {
  }

  datatype Permission =
    | UploadInvoices | ViewOwnInvoices | ViewAllInvoices | ViewReports | ManageUsers | ManageSettings

  /** `ROLE_PERMISSIONS`: the permissions whose flag is true for the role. */
  function PermissionsOf(role: Role): (ps: set<Permission>)
    ensures UploadInvoices in ps && ViewOwnInvoices in ps
    ensures ViewAllInvoices in ps <==> role != Uploader
    ensures ViewReports in ps <==> role != Uploader
    ensures ManageUsers in ps <==> role == Admin
    ensures ManageSettings in ps <==> role == Admin
  {
    match role
    case Uploader => {UploadInvoices, ViewOwnInvoices}
    case Accountant => {UploadInvoices, ViewOwnInvoices, ViewAllInvoices, ViewReports}
    case Admin => {UploadInvoices, ViewOwnInvoices, ViewAllInvoices, ViewReports, ManageUsers, ManageSettings}
  }

  /** `hasPermission`: false without a user, otherwise the table's flag for the user's role. */
  predicate HasPermission(user: Option<User>, p: Permission)
    ensures HasPermission(user, p) ==> user.Some?
    ensures user.Some? && (p == UploadInvoices || p == ViewOwnInvoices) ==> HasPermission(user, p)
  {
    user.Some? && p in PermissionsOf(user.value.role)
  }

  /** No user has any permission; an admin has all six; the roles form a strict chain
      uploader ⊂ accountant ⊂ admin. */
  lemma PermissionChain(user: Option<User>, p: Permission)
    ensures user.None? ==> !HasPermission(user, p)
    ensures user.Some? && user.value.role == Admin ==> HasPermission(user, p)
    ensures p in PermissionsOf(Uploader) ==> p in PermissionsOf(Accountant)
    ensures p in PermissionsOf(Accountant) ==> p in PermissionsOf(Admin)
    ensures PermissionsOf(Uploader) < PermissionsOf(Accountant) < PermissionsOf(Admin)
  {
    assert ViewReports !in PermissionsOf(Uploader);
    assert ManageUsers !in PermissionsOf(Accountant);
  }

  /** The fields of a decoded token that the helpers read. */
  datatype JwtPayload = JwtPayload(sub: string, email: string, name: string, role: Role, iat: int, exp: int)

  /** A stored token: its text and what decoding it yields (`None` when decoding throws). */
  datatype Token = Token(text: string, decoded: Option<JwtPayload>)

  /** The two local-storage keys the helpers own: `auth_token` and `user_data`. */
  datatype AuthStore = AuthStore(token: Option<Token>, userData: Option<string>)

  /** `clearAuth`: both keys removed. */
  const Cleared := AuthStore(None, None)

  /** `Math.floor(Date.now() / 1000)`: the current time in whole seconds. */
  function NowSeconds(nowMs: int): (s: int)
    ensures s * 1000 <= nowMs < s * 1000 + 1000
  {
    nowMs / 1000
  }

  /** The payload of a usable token: present, non-empty (an empty string is falsy), decodable. */
  function Payload(store: AuthStore): Option<JwtPayload> {
    if store.token.None? || store.token.value.text == [] then None else store.token.value.decoded
  }

  /** `AuthUtils.isAuthenticated`: the verdict and the storage afterwards. It holds iff a non-empty
      token decodes and expires strictly after now; a token that fails to decode clears storage. */
  function IsAuthenticated(store: AuthStore, nowMs: int): (r: (bool, AuthStore))
    ensures r.0 <==> Payload(store).Some? && Payload(store).value.exp > NowSeconds(nowMs)
    ensures r.1 == Cleared <==>
      (store.token.Some? && store.token.value.text != [] && store.token.value.decoded.None?) || store == Cleared
    ensures r.1 == store || r.1 == Cleared
  {
    match store.token
    case None => (false, store)
    case Some(t) =>
      if t.text == [] then (false, store)
      else match t.decoded
        case None => (false, Cleared)
        case Some(p) => (p.exp > NowSeconds(nowMs), store)
  }

  /** `getTokenTimeLeft`: seconds until expiry, never negative, zero without a usable token. It does
      not clear storage. */
  function TokenTimeLeft(store: AuthStore, nowMs: int): (left: int)
    ensures left >= 0
    ensures Payload(store).None? ==> left == 0
    ensures Payload(store).Some? && Payload(store).value.exp > NowSeconds(nowMs) ==>
      left == Payload(store).value.exp - NowSeconds(nowMs)
    ensures Payload(store).Some? && Payload(store).value.exp <= NowSeconds(nowMs) ==> left == 0
  {
    match Payload(store)
    case None => 0
    case Some(p) => if p.exp - NowSeconds(nowMs) > 0 then p.exp - NowSeconds(nowMs) else 0
  }

  /** `shouldRefreshToken`: fewer than 300 seconds left, but some. */
  predicate ShouldRefresh(store: AuthStore, nowMs: int)
    ensures ShouldRefresh(store, nowMs) ==> IsAuthenticated(store, nowMs).0
    ensures ShouldRefresh(store, nowMs) ==> Payload(store).value.exp - NowSeconds(nowMs) < 300
  {
    var left := TokenTimeLeft(store, nowMs);
    left > 0 && left < 300
  }

  /** The two token helpers agree: a session is authenticated exactly when time is left, and a token
      due for refresh is one that still authenticates, expiring within five minutes. */
  lemma TokenHelpersAgree(store: AuthStore, nowMs: int)
    ensures IsAuthenticated(store, nowMs).0 <==> TokenTimeLeft(store, nowMs) > 0
    ensures ShouldRefresh(store, nowMs) <==>
      IsAuthenticated(store, nowMs).0 && Payload(store).value.exp - NowSeconds(nowMs) < 300
  {
  }

  const TooShort := "密碼長度至少需要 8 個字元"
  const NoUpper := "密碼須包含至少一個大寫字母"
  const NoLower := "密碼須包含至少一個小寫字母"
  const NoDigit := "密碼須包含至少一個數字"

  /** The password rules in the order they are checked. */
  const PasswordMessages: seq<string> := [TooShort, NoUpper, NoLower, NoDigit]

  predicate HasUpper(pw: string) { exists i :: 0 <= i < |pw| && IsAsciiUpper(pw[i]) }

  predicate HasLower(pw: string) { exists i :: 0 <= i < |pw| && IsAsciiLower(pw[i]) }

  predicate HasDigit(pw: string) { exists i :: 0 <= i < |pw| && IsDigit(pw[i]) }

  /** Rule `k` of the four rejects the password. */
  predicate RuleFails(pw: string, k: int)
    requires 0 <= k < 4
  {
    if k == 0 then Utf16Length(pw) < 8
    else if k == 1 then !HasUpper(pw)
    else if k == 2 then !HasLower(pw)
    else !HasDigit(pw)
  }

  /** The position of a message among the rules (4 for any other text). */
  function RuleIndex(m: string): (k: nat)
    ensures k < 4 ==> PasswordMessages[k] == m
  {
    if m == TooShort then 0 else if m == NoUpper then 1 else if m == NoLower then 2
    else if m == NoDigit then 3 else 4
  }

  datatype PasswordCheck = PasswordCheck(isValid: bool, errors: seq<string>)

  /** The messages of `errors` come in rule order. */
  predicate InRuleOrder(errors: seq<string>) {
    forall a, b :: 0 <= a < b < |errors| ==> RuleIndex(errors[a]) < RuleIndex(errors[b])
  }

  /** `errors` after the first `k` rules: each holds the message of a rule among them, in rule
      order, and a rule's message is present iff that rule fails. */
  predicate ReportsFirst(pw: string, errors: seq<string>, k: nat)
    requires k <= 4
  {
    && |errors| <= k
    && (forall m :: m in errors ==> RuleIndex(m) < k)
    && InRuleOrder(errors)
    && (forall j :: 0 <= j < k ==> (PasswordMessages[j] in errors <==> RuleFails(pw, j)))
  }

  /** `if (rule k fails) errors.push(message k)`. */
  function Push(pw: string, errors: seq<string>, k: nat): seq<string>
    requires k < 4
  {
    errors + (if RuleFails(pw, k) then [PasswordMessages[k]] else [])
  }

  /** Checking rule `k` after the first `k` keeps the report complete and ordered. */
  lemma PushRule(pw: string, errors: seq<string>, k: nat)
    requires k < 4 && ReportsFirst(pw, errors, k)
    ensures ReportsFirst(pw, Push(pw, errors, k), k + 1)
  {
    MessagesDistinct();
    var next := Push(pw, errors, k);
    assert forall i :: 0 <= i < |errors| ==> next[i] == errors[i];
    forall j | 0 <= j < k ensures PasswordMessages[j] in next <==> RuleFails(pw, j) {
      assert PasswordMessages[j] != PasswordMessages[k];
    }
  }

  /** The four messages differ, so each names one rule. */
  lemma MessagesDistinct()
    ensures forall k :: 0 <= k < 4 ==> RuleIndex(PasswordMessages[k]) == k
  {
    assert TooShort[2] != NoUpper[2] && NoUpper[2] == NoLower[2] && NoLower[2] == NoDigit[2];
    assert NoUpper[9] != NoLower[9] && NoUpper[9] != NoDigit[9] && NoLower[9] != NoDigit[9];
  }

  /** `validatePassword`: one message per failing rule, in rule order; valid iff there is none. */
  function ValidatePassword(pw: string): (r: PasswordCheck)
    ensures r.isValid <==> r.errors == []
    ensures |r.errors| <= 4
    ensures forall k :: 0 <= k < 4 ==> (PasswordMessages[k] in r.errors <==> RuleFails(pw, k))
    ensures forall m :: m in r.errors ==> RuleIndex(m) < 4
    ensures forall a, b :: 0 <= a < b < |r.errors| ==> RuleIndex(r.errors[a]) < RuleIndex(r.errors[b])
  {
    var e0 := Push(pw, [], 0);
    PushRule(pw, [], 0);
    var e1 := Push(pw, e0, 1);
    PushRule(pw, e0, 1);
    var e2 := Push(pw, e1, 2);
    PushRule(pw, e1, 2);
    var errors := Push(pw, e2, 3);
    PushRule(pw, e2, 3);
    PasswordCheck(errors == [], errors)
  }

  /** A string without astral characters has as many code units as characters. */
  lemma NoAstral(s: string)
    requires forall i :: 0 <= i < |s| ==> s[i] as int < 128
    ensures Utf16Length(s) == |s|
  {
    assert forall i :: 0 <= i < |s| ==> !IsAstral(s[i]);
  }

  /** A sample password meeting every rule. */
  lemma PasswordExampleValid()
    ensures ValidatePassword("Passw0rd").isValid
  {
    var good := "Passw0rd";
    NoAstral(good);
    assert IsAsciiUpper(good[0]) && IsAsciiLower(good[1]) && IsDigit(good[5]);
    assert forall k :: 0 <= k < 4 ==> !RuleFails(good, k);
    assert Push(good, [], 0) == [] && Push(good, [], 1) == [] && Push(good, [], 2) == [] && Push(good, [], 3) == [];
  }

  /** A sample password failing all but the lower-case rule, reported in rule order. */
  lemma PasswordExampleShort()
    ensures ValidatePassword("abc").errors == [TooShort, NoUpper, NoDigit]
  {
    var bad := "abc";
    assert IsAsciiLower(bad[0]);
    assert !HasUpper(bad) && !HasDigit(bad) by {
      forall i | 0 <= i < |bad| ensures !IsAsciiUpper(bad[i]) && !IsDigit(bad[i]) {
        assert bad[i] == 'a' || bad[i] == 'b' || bad[i] == 'c';
      }
    }
    var e0 := Push(bad, [], 0);
    assert e0 == [TooShort];
    var e1 := Push(bad, e0, 1);
    assert e1 == [TooShort, NoUpper];
    var e2 := Push(bad, e1, 2);
    assert e2 == e1;
    assert Push(bad, e2, 3) == [TooShort, NoUpper, NoDigit];
  }

  /** The length rule counts UTF-16 code units: three astral characters after `Aa1` reach eight. */
  lemma AstralPasswordLength()
    ensures |"Aa1\U{1F600}\U{1F600}\U{1F600}"| == 6
    ensures ValidatePassword("Aa1\U{1F600}\U{1F600}\U{1F600}").isValid
  {
    var pw := "Aa1\U{1F600}\U{1F600}\U{1F600}";
    Utf16LengthAppend("Aa1", "\U{1F600}\U{1F600}\U{1F600}");
    assert Utf16Length("Aa1") == 3;
    assert Utf16Length("\U{1F600}\U{1F600}\U{1F600}") == 6;
    assert IsAsciiUpper(pw[0]) && IsAsciiLower(pw[1]) && IsDigit(pw[2]);
    assert forall k :: 0 <= k < 4 ==> !RuleFails(pw, k);
    assert Push(pw, [], 0) == [] && Push(pw, [], 1) == [] && Push(pw, [], 2) == [] && Push(pw, [], 3) == [];
  }

  /** A character `[^\s@]` admits. */
  predicate EmailChar(c: char) { !IsWhitespace(c) && c != '@' }

  predicate AllEmailChars(s: string) { forall k :: 0 <= k < |s| ==> EmailChar(s[k]) }

  /** The first index of `c` in `s`. */
  function IndexOf(s: string, c: char): (r: Option<nat>)
    ensures r.None? <==> c !in s
    ensures r.Some? ==> r.value < |s| && s[r.value] == c && c !in s[..r.value]
  {
    if |s| == 0 then None
    else if s[0] == c then Some(0)
    else
      match IndexOf(s[1..], c)
      case None => None
      case Some(k) =>
        assert s[..k + 1] == [s[0]] + s[1..][..k];
        Some(k + 1)
  }

  /** The domain has a '.' that is neither its first nor its last character. */
  predicate InnerDot(d: string) { exists j :: 0 < j < |d| - 1 && d[j] == '.' }

  /** `validateEmail`, computed: a first '@' that is not at the start, no whitespace or '@' before
      it, and after it a domain free of whitespace and '@' with an inner '.'. */
  function ValidateEmail(s: string): (ok: bool)
    ensures ok ==> |s| >= 5 && '@' in s && s[0] != '@'
    ensures ok ==> forall k :: 0 <= k < |s| ==> !IsWhitespace(s[k])
    ensures ok ==> multiset(s)['@'] == 1
  {
    match IndexOf(s, '@')
    case None => false
    case Some(i) =>
      var ok := i > 0 && AllEmailChars(s[..i]) && AllEmailChars(s[i + 1..]) && InnerDot(s[i + 1..]);
      if ok then
        EmailShape(s, i);
        true
      else false
  }

  /** An address accepted around its first '@' at `i` is long enough, has no whitespace anywhere,
      and has that '@' as its only one. */
  lemma EmailShape(s: string, i: nat)
    requires 0 < i < |s| && s[i] == '@'
    requires AllEmailChars(s[..i]) && AllEmailChars(s[i + 1..]) && InnerDot(s[i + 1..])
    ensures |s| >= 5 && s[0] != '@'
    ensures forall k :: 0 <= k < |s| ==> !IsWhitespace(s[k])
    ensures multiset(s)['@'] == 1
  {
    var a, d := s[..i], s[i + 1..];
    assert s == a + [s[i]] + d;
    assert s[0] == a[0];
    forall k | 0 <= k < |s| ensures !IsWhitespace(s[k]) {
      if k < i { assert s[k] == a[k]; } else if k > i { assert s[k] == d[k - i - 1]; }
    }
    assert '@' !in a by { forall k | 0 <= k < |a| ensures a[k] != '@' { assert EmailChar(a[k]); } }
    assert '@' !in d by { forall k | 0 <= k < |d| ensures d[k] != '@' { assert EmailChar(d[k]); } }
    assert multiset(s) == multiset(a) + multiset{'@'} + multiset(d);
  }

  /** The language of `^[^\s@]+@[^\s@]+\.[^\s@]+$`. */
  ghost predicate MatchesEmailPattern(s: string) {
    exists a: string, b: string, c: string ::
      |a| > 0 && |b| > 0 && |c| > 0 && AllEmailChars(a) && AllEmailChars(b) && AllEmailChars(c)
      && s == a + "@" + b + "." + c
  }

  /** The computed validator accepts exactly the strings of the pattern. */
  lemma ValidateEmailMatchesPattern(s: string)
    ensures ValidateEmail(s) <==> MatchesEmailPattern(s)
  {
    if ValidateEmail(s) {
      AcceptedEmailSplits(s);
    }
    if MatchesEmailPattern(s) {
      var a: string, b: string, c: string :|
        |a| > 0 && |b| > 0 && |c| > 0 && AllEmailChars(a) && AllEmailChars(b) && AllEmailChars(c)
        && s == a + "@" + b + "." + c;
      PatternEmailAccepted(a, b, c);
    }
  }

  /** An accepted address splits around its '@' and an inner '.' of the domain. */
  lemma AcceptedEmailSplits(s: string)
    requires ValidateEmail(s)
    ensures MatchesEmailPattern(s)
  {
    var i := IndexOf(s, '@').value;
    assert s == s[..i] + "@" + s[i + 1..] by {
      assert s == s[..i] + [s[i]] + s[i + 1..];
    }
    DomainSplits(s[..i], s[i + 1..]);
  }

  /** A local part and a domain with an inner '.', both of `[^\s@]` characters, form an address
      of the pattern. */
  lemma DomainSplits(a: string, d: string)
    requires |a| > 0 && AllEmailChars(a) && AllEmailChars(d) && InnerDot(d)
    ensures MatchesEmailPattern(a + "@" + d)
  {
    var j :| 0 < j < |d| - 1 && d[j] == '.';
    var b, c := d[..j], d[j + 1..];
    assert d == b + "." + c by {
      assert d == d[..j] + [d[j]] + d[j + 1..];
    }
    EmailCharsSlice(d, 0, j);
    EmailCharsSlice(d, j + 1, |d|);
    PatternWitness(a, b, c);
    assert a + "@" + d == a + "@" + b + "." + c by {
      Associate(a + "@", b + ".", c);
      Associate(a + "@", b, ".");
    }
  }

  /** Concatenation regrouped. */
  lemma Associate(x: string, y: string, z: string)
    ensures x + (y + z) == x + y + z
  {
  }

  /** Three non-empty runs of `[^\s@]` characters joined by '@' and '.' are of the pattern. */
  lemma PatternWitness(a: string, b: string, c: string)
    requires |a| > 0 && |b| > 0 && |c| > 0
    requires AllEmailChars(a) && AllEmailChars(b) && AllEmailChars(c)
    ensures MatchesEmailPattern(a + "@" + b + "." + c)
  {
  }

  /** A slice of a string of `[^\s@]` characters is one too. */
  lemma EmailCharsSlice(d: string, lo: nat, hi: nat)
    requires lo <= hi <= |d| && AllEmailChars(d)
    ensures AllEmailChars(d[lo..hi])
  {
    assert forall k :: 0 <= k < hi - lo ==> d[lo..hi][k] == d[lo + k];
  }

  /** A string of the pattern's shape is accepted. */
  lemma PatternEmailAccepted(a: string, b: string, c: string)
    requires |a| > 0 && |b| > 0 && |c| > 0
    requires AllEmailChars(a) && AllEmailChars(b) && AllEmailChars(c)
    ensures ValidateEmail(a + "@" + b + "." + c)
  {
    var d := b + "." + c;
    var s := a + "@" + b + "." + c;
    assert s == a + "@" + d;
    assert s[..|a|] == a && s[|a|] == '@' && s[|a| + 1..] == d;
    FirstAtAfter(a, d);
    assert AllEmailChars(d) by {
      forall k | 0 <= k < |d| ensures EmailChar(d[k]) {
        if k < |b| { assert d[k] == b[k]; }
        else if k > |b| { assert d[k] == c[k - |b| - 1]; }
      }
    }
    assert d[|b|] == '.';
    assert InnerDot(d);
  }

  /** The first '@' of `a + "@" + d` is the one after `a` when `a` has none. */
  lemma FirstAtAfter(a: string, d: string)
    requires AllEmailChars(a)
    ensures IndexOf(a + "@" + d, '@') == Some(|a|)
  {
    var s := a + "@" + d;
    assert s[|a|] == '@';
    assert forall k :: 0 <= k < |a| ==> s[k] == a[k] && EmailChar(a[k]);
  }

  /** `ROLE_LABELS` through `formatUserRole`. */
  function FormatUserRole(role: Role): (name: string)
    ensures name != []
  {
    match role
    case Uploader => "上傳者"
    case Accountant => "會計師"
    case Admin => "系統管理員"
  }

  /** Distinct roles get distinct labels. */
  lemma FormatUserRoleInjective(a: Role, b: Role)
    requires FormatUserRole(a) == FormatUserRole(b)
    ensures a == b
  {
  }
}
