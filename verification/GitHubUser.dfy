// The GitHub user loader (providers/github/user.go). What a method comes to is a function of the
// replies and of the context's answers, with the number of the next observation threaded through.

module GitHubUser {
  import opened Wrappers
  import opened Text
  import opened Errors
  import opened Contexts
  import opened Model
  import opened Transport

  datatype GitHubAccount = GitHubAccount(id: string, login: string, name: string, email: string, avatarURL: string)

  datatype GitHubEmail = GitHubEmail(email: string, primary: bool, verified: bool)

  // JSON decoding is a parameter: None is a document that does not decode.
  datatype Documents = Documents(user: string -> Option<GitHubAccount>, emails: string -> Option<seq<GitHubEmail>>)

  const PROVIDER_NAME := "github"

  datatype Outcome<T> = Outcome(result: Result<T, GoError>, observations: nat)

  predicate AllDigits(s: string) {
    forall i :: 0 <= i < |s| ==> '0' <= s[i] <= '9'
  }

  function Decimal(s: string): nat
    requires AllDigits(s)
  {
    if s == "" then 0 else Decimal(s[..|s| - 1]) * 10 + (s[|s| - 1] as int - '0' as int)
  }

  // strconv.ParseUint(id, 10, 64) succeeds.
  predicate IsUint64(id: string) {
    id != "" && AllDigits(id) && Decimal(id) < 0x1_0000_0000_0000_0000
  }

  // The decimal digits of a number.
  function Digits(n: nat): (s: string)
    ensures s != "" && AllDigits(s)
  {
    var last := ['0' + (n % 10) as char];
    if n < 10 then last else Digits(n / 10) + last
  }

  lemma {:induction false} DecimalOfDigits(n: nat)
    ensures Decimal(Digits(n)) == n
  {
    var s := Digits(n);
    if n >= 10 {
      DecimalOfDigits(n / 10);
      assert s[..|s| - 1] == Digits(n / 10);
    } else {
      assert s[..|s| - 1] == "";
    }
  }

  // An account's number is accepted when it is decimal and fits 64 bits.
  lemma UintsAreAccepted(n: nat)
    ensures IsUint64(Digits(n)) <==> n <= 18446744073709551615
  {
    DecimalOfDigits(n);
  }

  predicate CanRequestEmails(scopes: Option<seq<string>>) {
    scopes.None? || "user" in scopes.value || "user:email" in scopes.value
  }

  predicate Usable(email: GitHubEmail) {
    email.verified && TrimSpace(email.email) != ""
  }

  // The first usable address, among the primary ones if asked for.
  function FirstUsable(emails: seq<GitHubEmail>, primary: bool): Option<string> {
    if emails == [] then None
    else if Usable(emails[0]) && (primary ==> emails[0].primary) then Some(TrimSpace(emails[0].email))
    else FirstUsable(emails[1..], primary)
  }

  function PickEmail(emails: seq<GitHubEmail>): Option<string> {
    if FirstUsable(emails, true).Some? then FirstUsable(emails, true) else FirstUsable(emails, false)
  }

  // There is an address exactly when some entry is verified and nonblank; a primary one is preferred,
  // and the result is trimmed.
  lemma {:induction false} FirstUsableMeans(emails: seq<GitHubEmail>, primary: bool)
    ensures FirstUsable(emails, primary).Some? <==> exists e :: e in emails && Usable(e) && (primary ==> e.primary)
    ensures FirstUsable(emails, primary).Some? ==>
              exists i :: 0 <= i < |emails| && Usable(emails[i]) && (primary ==> emails[i].primary)
                          && FirstUsable(emails, primary).value == TrimSpace(emails[i].email)
                          && forall j :: 0 <= j < i ==> !(Usable(emails[j]) && (primary ==> emails[j].primary))
  {
    if emails != [] {
      FirstUsableMeans(emails[1..], primary);
      assert emails == [emails[0]] + emails[1..];
      if !(Usable(emails[0]) && (primary ==> emails[0].primary)) && FirstUsable(emails, primary).Some? {
        var i :| 0 <= i < |emails[1..]| && Usable(emails[1..][i]) && (primary ==> emails[1..][i].primary)
                 && FirstUsable(emails, primary).value == TrimSpace(emails[1..][i].email)
                 && forall j :: 0 <= j < i ==> !(Usable(emails[1..][j]) && (primary ==> emails[1..][j].primary));
        assert emails[i + 1] == emails[1..][i];
        forall j | 0 <= j < i + 1 ensures !(Usable(emails[j]) && (primary ==> emails[j].primary)) {
          if j > 0 {
            assert emails[j] == emails[1..][j - 1];
          }
        }
      }
    }
  }

  // The first entry that is verified and nonblank, and primary if that is asked for.
  ghost predicate FirstAt(emails: seq<GitHubEmail>, i: nat, primary: bool) {
    && i < |emails| && emails[i].verified && TrimSpace(emails[i].email) != "" && (primary ==> emails[i].primary)
    && forall j :: 0 <= j < i ==>
         !(emails[j].verified && TrimSpace(emails[j].email) != "" && (primary ==> emails[j].primary))
  }

  // The address GitHub's list stands for: that of the first primary, verified and nonblank entry, or
  // else of the first verified and nonblank one, trimmed; or none.
  ghost predicate Chosen(emails: seq<GitHubEmail>, email: Option<string>) {
    if exists i: nat :: FirstAt(emails, i, true) then
      exists i: nat :: FirstAt(emails, i, true) && email == Some(TrimSpace(emails[i].email))
    else if exists i: nat :: FirstAt(emails, i, false) then
      exists i: nat :: FirstAt(emails, i, false) && email == Some(TrimSpace(emails[i].email))
    else email.None?
  }

  lemma FirstUsableIsFirst(emails: seq<GitHubEmail>, primary: bool)
    ensures FirstUsable(emails, primary).Some? <==> exists i: nat :: FirstAt(emails, i, primary)
    ensures FirstUsable(emails, primary).Some? ==>
              exists i: nat :: FirstAt(emails, i, primary) && FirstUsable(emails, primary) == Some(TrimSpace(emails[i].email))
  {
    FirstUsableMeans(emails, primary);
    if FirstUsable(emails, primary).Some? {
      var i :| 0 <= i < |emails| && Usable(emails[i]) && (primary ==> emails[i].primary)
               && FirstUsable(emails, primary).value == TrimSpace(emails[i].email)
               && forall j :: 0 <= j < i ==> !(Usable(emails[j]) && (primary ==> emails[j].primary));
      assert FirstAt(emails, i, primary);
    }
    forall i: nat | FirstAt(emails, i, primary)
      ensures FirstUsable(emails, primary).Some?
    {
      assert emails[i] in emails && Usable(emails[i]);
    }
  }

  lemma PickEmailIsChosen(emails: seq<GitHubEmail>)
    ensures Chosen(emails, PickEmail(emails))
  {
    FirstUsableIsFirst(emails, true);
    FirstUsableIsFirst(emails, false);
  }

  // --- what the methods come to ---

  function Fetch(ctx: Context, name: string, limit: int64, reply: Reply, decodes: string -> bool, k: nat): Outcome<string>
    requires limit >= 0
  {
    Outcome(Fetched(name, limit, reply, ctx.Seen(k), decodes), k + Looks(limit, reply))
  }

  function Fallback(ctx: Context, name: string, limit: int64, reply: Reply, documents: Documents, k: nat): Outcome<Option<string>>
    requires limit >= 0
  {
    var fetched := Fetch(ctx, name, limit, reply, raw => documents.emails(raw).Some?, k);
    match fetched.result
    case Err(error) =>
      Outcome(if ctx.Cancelled(fetched.observations) then Err(error) else Ok(None), fetched.observations + 1)
    case Ok(raw) =>
      Outcome(if documents.emails(raw).Some? then Ok(PickEmail(documents.emails(raw).value)) else Ok(None), fetched.observations)
  }

  function Profile(source: GitHubAccount, raw: string): User {
    User("", source.id, source.login, source.name, TrimSpace(source.email), source.avatarURL,
         Token("", "", "", 0, None), Some(raw))
  }

  function Loaded(ctx: Context, name: string, limit: int64, userReply: Reply, emailReply: Reply, documents: Documents,
                  scopes: Option<seq<string>>, k: nat): Outcome<User>
    requires limit >= 0
  {
    var fetched := Fetch(ctx, name, limit, userReply, raw => documents.user(raw).Some?, k);
    match fetched.result
    case Err(error) => Outcome(Err(error), fetched.observations)
    case Ok(raw) =>
      match documents.user(raw)
      case None => Outcome(Err(NewError(DECODING, PROVIDER_NAME, "map GitHub user", None)), fetched.observations)
      case Some(source) =>
        if !IsUint64(source.id) then
          Outcome(Err(NewError(DECODING, PROVIDER_NAME, "map GitHub user", None)), fetched.observations)
        else
          var user := Profile(source, raw);
          if user.email == "" && CanRequestEmails(scopes) then
            var fallback := Fallback(ctx, name, limit, emailReply, documents, fetched.observations);
            match fallback.result
            case Err(error) => Outcome(Err(error), fallback.observations)
            case Ok(None) => Outcome(Ok(user), fallback.observations)
            case Ok(Some(email)) => Outcome(Ok(user.(email := email)), fallback.observations)
          else
            Outcome(Ok(user), fetched.observations)
  }

  // The reply is a document GetJSON hands over.
  predicate Arrives(limit: int64, reply: Reply) {
    && reply.Reply? && reply.contentLength <= limit && 200 <= reply.status < 300
    && |reply.bytes| <= limit as int && reply.ending == EOF
  }

  lemma FallbackMeans(ctx: Context, name: string, limit: int64, reply: Reply, documents: Documents, k: nat)
    requires limit >= 0 && Fallback(ctx, name, limit, reply, documents, k).result.Ok?
    ensures var email := Fallback(ctx, name, limit, reply, documents, k).result.value;
            if Arrives(limit, reply) && documents.emails(reply.bytes).Some? then
              Chosen(documents.emails(reply.bytes).value, email)
            else email.None?
  {
    SuccessIsTheWholeBody(name, limit, reply, ctx.Seen(k), raw => documents.emails(raw).Some?);
    if reply.Reply? && documents.emails(reply.bytes).Some? {
      PickEmailIsChosen(documents.emails(reply.bytes).value);
    }
  }

  // The user says what the account and the chosen address say.
  ghost predicate Fits(user: User, account: GitHubAccount, document: string, email: Option<string>) {
    && user.id == account.id && user.nickname == account.login && user.name == account.name
    && user.avatarURL == account.avatarURL && user.raw == Some(document)
    && user.email == match email case Some(address) => address case None => TrimSpace(account.email)
  }

  // A loaded user, field by field. The e-mail endpoint is asked when the account shows no address and the
  // scopes are unknown or allow it; a list that came back decides the address, and one that did not
  // leaves it empty.
  lemma LoadedUser(ctx: Context, name: string, limit: int64, userReply: Reply, emailReply: Reply, documents: Documents,
                   scopes: Option<seq<string>>, k: nat)
    requires limit >= 0 && Loaded(ctx, name, limit, userReply, emailReply, documents, scopes, k).result.Ok?
    ensures Arrives(limit, userReply) && documents.user(userReply.bytes).Some?
    ensures var user := Loaded(ctx, name, limit, userReply, emailReply, documents, scopes, k).result.value;
            var account := documents.user(userReply.bytes).value;
            var asked := TrimSpace(account.email) == ""
                         && (scopes.None? || "user" in scopes.value || "user:email" in scopes.value);
            if asked && Arrives(limit, emailReply) && documents.emails(emailReply.bytes).Some? then
              exists email :: Chosen(documents.emails(emailReply.bytes).value, email) && Fits(user, account, userReply.bytes, email)
            else Fits(user, account, userReply.bytes, None)
  {
    var fetched := Fetch(ctx, name, limit, userReply, raw => documents.user(raw).Some?, k);
    SuccessIsTheWholeBody(name, limit, userReply, ctx.Seen(k), raw => documents.user(raw).Some?);
    if TrimSpace(documents.user(userReply.bytes).value.email) == "" && CanRequestEmails(scopes) {
      FallbackMeans(ctx, name, limit, emailReply, documents, fetched.observations);
    }
  }

  // An account whose number is no decimal text, or that does not decode, fails as a decoding error.
  lemma UnreadableAccountFails(ctx: Context, name: string, limit: int64, userReply: Reply, emailReply: Reply, documents: Documents,
                               scopes: Option<seq<string>>, k: nat)
    requires limit >= 0 && Arrives(limit, userReply)
    ensures var loaded := Loaded(ctx, name, limit, userReply, emailReply, documents, scopes, k).result;
            var account := documents.user(userReply.bytes);
            account.None? || account.value.id == "" || (exists c :: c in account.value.id && !('0' <= c <= '9')) ==>
              loaded.Err? && IsErrorCode(loaded.error, DECODING)
  {
    SuccessIsTheWholeBody(name, limit, userReply, ctx.Seen(k), raw => documents.user(raw).Some?);
  }

  // --- the methods ---

  lemma OneFurther(emails: seq<GitHubEmail>, i: nat, primary: bool)
    requires i < |emails|
    ensures FirstUsable(emails[i..], primary) ==
            if Usable(emails[i]) && (primary ==> emails[i].primary) then Some(TrimSpace(emails[i].email))
            else FirstUsable(emails[i + 1..], primary)
  {
    assert emails[i..][1..] == emails[i + 1..];
  }

  // The two loops of fallbackEmail.
  method ScanPrimary(emails: seq<GitHubEmail>) returns (email: Option<string>)
    ensures email == FirstUsable(emails, true)
  {
    assert emails[0..] == emails;
    for i := 0 to |emails|
      invariant FirstUsable(emails, true) == FirstUsable(emails[i..], true)
    {
      OneFurther(emails, i, true);
      if emails[i].primary && emails[i].verified && TrimSpace(emails[i].email) != "" {
        return Some(TrimSpace(emails[i].email));
      }
    }
    email := None;
  }

  method ScanVerified(emails: seq<GitHubEmail>) returns (email: Option<string>)
    ensures email == FirstUsable(emails, false)
  {
    assert emails[0..] == emails;
    for i := 0 to |emails|
      invariant FirstUsable(emails, false) == FirstUsable(emails[i..], false)
    {
      OneFurther(emails, i, false);
      if emails[i].verified && TrimSpace(emails[i].email) != "" {
        return Some(TrimSpace(emails[i].email));
      }
    }
    email := None;
  }

  method ScanEmails(emails: seq<GitHubEmail>) returns (email: Option<string>)
    ensures email == PickEmail(emails) && Chosen(emails, email)
  {
    PickEmailIsChosen(emails);
    email := ScanPrimary(emails);
    if email.None? {
      email := ScanVerified(emails);
    }
  }

  method FallbackEmail(ctx: Context, fetcher: Fetcher, exchange: Exchange, documents: Documents)
    returns (result: Result<Option<string>, GoError>)
    requires fetcher.Valid()
    modifies ctx`observations
    modifies if exchange.Responds? then {exchange.body} else {}
    ensures Outcome(result, ctx.observations) ==
            Fallback(ctx, fetcher.providerName, fetcher.maxResponseSize, old(Content(exchange)), documents, old(ctx.observations))
  {
    var fetched := fetcher.GetJSON(ctx, exchange, raw => documents.emails(raw).Some?);
    if fetched.Err? {
      var ctxErr := ctx.Err();
      if ctxErr.Some? {
        return Err(fetched.error);
      }
      return Ok(None);
    }
    var emails := documents.emails(fetched.value);
    if emails.None? {
      return Ok(None);
    }
    var email := ScanEmails(emails.value);
    result := Ok(email);
  }

  method LoadUser(ctx: Context, fetcher: Fetcher, userExchange: Exchange, emailExchange: Exchange, documents: Documents,
                  scopes: Option<seq<string>>)
    returns (result: Result<User, GoError>)
    requires fetcher.Valid()
    requires userExchange.Responds? && emailExchange.Responds? ==> userExchange.body != emailExchange.body
    modifies ctx`observations
    modifies if userExchange.Responds? then {userExchange.body} else {}
    modifies if emailExchange.Responds? then {emailExchange.body} else {}
    ensures Outcome(result, ctx.observations) ==
            Loaded(ctx, fetcher.providerName, fetcher.maxResponseSize, old(Content(userExchange)), old(Content(emailExchange)),
                   documents, scopes, old(ctx.observations))
  {
    var fetched := fetcher.GetJSON(ctx, userExchange, raw => documents.user(raw).Some?);
    if fetched.Err? {
      return Err(fetched.error);
    }
    var source := documents.user(fetched.value);
    if source.None? || !IsUint64(source.value.id) {
      return Err(NewError(DECODING, PROVIDER_NAME, "map GitHub user", None));
    }
    var user := Profile(source.value, fetched.value);
    if user.email == "" && CanRequestEmails(scopes) {
      var email := FallbackEmail(ctx, fetcher, emailExchange, documents);
      if email.Err? {
        return Err(email.error);
      }
      if email.value.Some? {
        user := user.(email := email.value.value);
      }
    }
    result := Ok(user);
  }
}
