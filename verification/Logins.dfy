/**
 * The logins the command line saves, and which of them a command runs with (internal/cli/config.go and the commands of
 * internal/cli/login.go that change them). norm is how addresses are written one way, so that spellings of one place
 * compare equal; the empty address is written as nothing.
 */
module Logins {
  import opened Wrappers
  import opened Text

  datatype Context = Context(url: string, token: string, project: string, environment: string, user: string, role: string, expiresAt: Option<int>)

  const NO_CONTEXT := Context("", "", "", "", "", "", None)

  datatype Config = Config(current: string, contexts: map<string, Context>) {

    /** A Go map read: the saved login, or an empty one. */
    function Saved(name: string): Context
    {
      if name in contexts then contexts[name] else NO_CONTEXT
    }
  }

  function FirstSet(values: seq<string>): string
  {
    if values == [] then "" else if values[0] != "" then values[0] else FirstSet(values[1..])
  }

  /** firstSet: the value that is set and has none set before it, or "" when none is set. */
  lemma {:induction false} FirstSetIsFirst(values: seq<string>, k: nat)
    requires k <= |values| && (k < |values| ==> values[k] != "") && forall i :: 0 <= i < k ==> values[i] == ""
    ensures FirstSet(values) == if k < |values| then values[k] else ""
  {
    if k > 0 {
      FirstSetIsFirst(values[1..], k - 1);
    }
  }

  lemma FirstOfTwo(a: string, b: string)
    ensures FirstSet([a, b]) == if a != "" then a else b
  {
    FirstSetIsFirst([a, b], if a != "" then 0 else if b != "" then 1 else 2);
  }

  lemma FirstOfThree(a: string, b: string, c: string)
    ensures FirstSet([a, b, c]) == if a != "" then a else if b != "" then b else c
  {
    FirstSetIsFirst([a, b, c], if a != "" then 0 else if b != "" then 1 else if c != "" then 2 else 3);
  }

  predicate SameAddress(norm: string -> string, a: string, b: string)
  {
    norm(a) != "" && norm(a) == norm(b)
  }

  function CutAt(s: string): string
  {
    if s == "" || Ends(s[0]) then "" else [s[0]] + CutAt(s[1..])
  }

  function TrimPrefix(s: string, prefix: string): string
  {
    if HasPrefix(s, prefix) then s[|prefix|..] else s
  }

  /** The name a login gets from its address, never empty. */
  function ContextName(address: string): (name: string)
    ensures name != ""
  {
    var host := CutAt(TrimRight(TrimPrefix(TrimPrefix(address, "https://"), "http://"), '/'));
    if host == "" then "default" else host
  }

  lemma {:induction false} TrimRightKeeps(s: string, rest: string, c: char) returns (shorter: string)
    requires s == "" || s[|s| - 1] != c
    ensures shorter <= rest && TrimRight(s + rest, c) == s + shorter
    decreases |rest|
  {
    if rest == "" {
      assert s + rest == s;
      shorter := "";
    } else if rest[|rest| - 1] == c {
      var front := rest[..|rest| - 1];
      assert (s + rest)[..|s + rest| - 1] == s + front;
      shorter := TrimRightKeeps(s, front, c);
    } else {
      shorter := rest;
    }
  }

  predicate Ends(c: char)
  {
    c == '/' || c == '?'
  }

  lemma {:induction false} CutAtKeeps(host: string, rest: string)
    requires (forall c :: c in host ==> !Ends(c)) && (rest == "" || Ends(rest[0]))
    ensures CutAt(host + rest) == host
  {
    if host == "" {
      assert host + rest == rest;
    } else {
      assert (host + rest)[1..] == host[1..] + rest;
      CutAtKeeps(host[1..], rest);
      assert host == [host[0]] + host[1..];
    }
  }

  lemma SchemeIsTheHost(host: string, rest: string, scheme: string)
    requires scheme in {"https:", "http:"} && (forall c :: c in host ==> !Ends(c)) && (rest == "" || Ends(rest[0]))
    ensures scheme + "//" <= host + rest ==> host == scheme
  {
    var s, prefix := host + rest, scheme + "//";
    if prefix <= s {
      assert forall k :: 0 <= k < |prefix| ==> s[k] == prefix[k];
      assert forall k :: 0 <= k < |scheme| ==> !Ends(prefix[k]);
      assert Ends(prefix[|scheme|]);
      assert forall k :: 0 <= k < |host| ==> host[k] in host && s[k] == host[k];
      assert |host| <= |scheme| && Ends(s[|host|]);
      assert |host| == |scheme|;
      assert host == s[..|host|] && scheme == s[..|scheme|];
    }
  }

  /** A login is named after the host of its address, whatever path or query follows, and "default" without one. */
  lemma NameIsTheHost(scheme: string, host: string, rest: string)
    requires scheme in {"https://", "http://", ""} && host !in {"https:", "http:"}
    requires (forall c :: c in host ==> !Ends(c)) && (rest == "" || Ends(rest[0]))
    ensures ContextName(scheme + host + rest) == if host == "" then "default" else host
  {
    var s, address := host + rest, scheme + host + rest;
    SchemeIsTheHost(host, rest, "https:");
    SchemeIsTheHost(host, rest, "http:");
    assert "https:" + "//" == "https://" && "http:" + "//" == "http://";
    assert address == scheme + s && address[|scheme|..] == s;
    assert scheme == "http://" ==> address[4] == ':' && !("https://" <= address);
    assert TrimPrefix(TrimPrefix(address, "https://"), "http://") == s;
    assert host != "" ==> host[|host| - 1] in host;
    var shorter := TrimRightKeeps(host, rest, '/');
    CutAtKeeps(host, shorter);
  }

  // ----- the login made for an address

  predicate Matches(c: Config, norm: string -> string, address: string, name: string)
  {
    name in c.contexts && SameAddress(norm, c.contexts[name].url, address)
  }

  /** The logins with a name that were made for an address. */
  function NamedMatches(c: Config, norm: string -> string, address: string): (names: set<string>)
  {
    set name | name in c.contexts && name != "" && Matches(c, norm, address, name)
  }

  /** What contextForAddress answers, whatever order the names come in. */
  ghost predicate ForAddress(c: Config, norm: string -> string, address: string, found: (string, Context))
  {
    var names := NamedMatches(c, norm, address);
    && (names == {} ==> found == ("", c.Saved("")))
    && (names != {} ==> (names == {found.0} && found.1 == c.Saved(found.0)) || (names != {found.0} && |names| > 1 && found == ("", NO_CONTEXT)))
  }

  /** The names of the saved logins, sorted. */
  method ContextNames(c: Config) returns (names: seq<string>)
    ensures forall i, j :: 0 <= i < j < |names| ==> Less(names[i], names[j])
    ensures forall n :: n in names <==> n in c.contexts
  {
    names := [];
    var left := c.contexts.Keys;
    while left != {}
      invariant left <= c.contexts.Keys
      invariant forall i, j :: 0 <= i < j < |names| ==> Less(names[i], names[j])
      invariant forall n :: n in names <==> n in c.contexts && n !in left
      decreases left
    {
      var name :| name in left;
      left := left - {name};
      names := InsertName(names, name);
    }
  }

  method InsertName(names: seq<string>, name: string) returns (longer: seq<string>)
    requires forall i, j :: 0 <= i < j < |names| ==> Less(names[i], names[j])
    requires name !in names
    ensures forall i, j :: 0 <= i < j < |longer| ==> Less(longer[i], longer[j])
    ensures forall n :: n in longer <==> n == name || n in names
  {
    var i := 0;
    while i < |names| && Less(names[i], name)
      invariant i <= |names|
      invariant forall j :: 0 <= j < i ==> Less(names[j], name)
    {
      i := i + 1;
    }
    forall j | i <= j < |names| ensures Less(name, names[j]) {
      LessIsTotal(names[i], name);
      if i < j {
        LessIsTransitive(name, names[i], names[j]);
      }
    }
    longer := names[..i] + [name] + names[i..];
    assert names == names[..i] + names[i..];
  }

  method ContextForAddress(c: Config, norm: string -> string, address: string) returns (name: string, saved: Context)
    ensures ForAddress(c, norm, address, (name, saved))
  {
    var names := ContextNames(c);
    ghost var matching := NamedMatches(c, norm, address);
    name := "";
    for i := 0 to |names|
      invariant name != "" ==> name in matching && name in names[..i]
      invariant forall n :: n in names[..i] && n in matching ==> n == name
    {
      assert names[..i + 1] == names[..i] + [names[i]];
      if !SameAddress(norm, c.Saved(names[i]).url, address) {
        continue;
      }
      if name != "" {
        LessIsTotal(names[i], names[i]);
        assert names[i] != "" && names[i] != name by {
          var k :| 0 <= k < i && names[k] == name;
          assert Less(names[k], names[i]);
        }
        TwoInASet(matching, name, names[i]);
        return "", NO_CONTEXT;
      }
      name := names[i];
    }
    assert names[..|names|] == names;
    if name == "" {
      assert matching == {};
    } else {
      assert matching == {name};
    }
    saved := c.Saved(name);
  }

  lemma TwoInASet(s: set<string>, a: string, b: string)
    requires a in s && b in s && a != b
    ensures |s| > 1
  {
    assert {a, b} <= s;
    var rest := s - {a};
    assert b in rest && |rest| == |s| - 1;
  }

  // ----- resolving

  datatype Resolved = Resolved(contextName: string, url: string, token: string, project: string, environment: string)

  /** What the person gave for this run: flags, then the environment. */
  datatype Given = Given(flags: Resolved, contextFlag: string, env: Resolved, contextEnv: string) {

    function Chosen(): string
    {
      FirstSet([contextFlag, contextEnv])
    }
  }

  /** The address a command runs against. */
  function Address(c: Config, given: Given): string
  {
    TrimRight(FirstSet([given.flags.url, given.env.url, c.Saved(FirstSet([given.Chosen(), c.current])).url]), '/')
  }

  /** Which saved login a command runs with: its name, "" for none, and the login. */
  ghost predicate Picks(c: Config, norm: string -> string, given: Given, picked: (string, Context))
  {
    var name, address := FirstSet([given.Chosen(), c.current]), Address(c, given);
    if SameAddress(norm, c.Saved(name).url, address) then picked == (name, c.Saved(name))
    else if given.Chosen() != "" then picked == ("", NO_CONTEXT)
    else ForAddress(c, norm, address, picked)
  }

  function Combine(given: Given, address: string, picked: (string, Context)): Resolved
  {
    Resolved(picked.0, address,
             FirstSet([given.flags.token, given.env.token, picked.1.token]),
             FirstSet([given.flags.project, given.env.project, picked.1.project]),
             FirstSet([given.flags.environment, given.env.environment, picked.1.environment]))
  }

  ghost predicate ResolvesTo(c: Config, norm: string -> string, given: Given, r: Resolved)
  {
    exists picked :: Picks(c, norm, given, picked) && r == Combine(given, Address(c, given), picked)
  }

  method Resolve(c: Config, norm: string -> string, given: Given) returns (r: Resolved)
    ensures ResolvesTo(c, norm, given, r)
  {
    var chosen := given.Chosen();
    var name := FirstSet([chosen, c.current]);
    var saved := c.Saved(name);
    var address := TrimRight(FirstSet([given.flags.url, given.env.url, saved.url]), '/');
    if !SameAddress(norm, saved.url, address) {
      name, saved := "", NO_CONTEXT;
      if chosen == "" {
        name, saved := ContextForAddress(c, norm, address);
      }
    }
    assert Picks(c, norm, given, (name, saved));
    r := Combine(given, address, (name, saved));
  }

  /** A saved login is used only for the address it was made for, and one that was chosen by name is never swapped. */
  lemma SavedLoginBelongsToItsAddress(c: Config, norm: string -> string, given: Given, picked: (string, Context))
    requires norm("") == "" && Picks(c, norm, given, picked) && "" !in c.contexts
    ensures picked.0 == "" ==> picked.1 == NO_CONTEXT
    ensures picked.0 != "" ==> picked.0 in c.contexts && picked.1 == c.contexts[picked.0] && SameAddress(norm, picked.1.url, Address(c, given))
    ensures given.Chosen() != "" ==> picked.0 == given.Chosen() || picked.0 == ""
    ensures given.Chosen() == "" && picked.0 != "" && picked.0 != c.current ==>
              forall n :: Matches(c, norm, Address(c, given), n) ==> n == picked.0
  {
    var address := Address(c, given);
    FirstOfTwo(given.Chosen(), c.current);
    if given.Chosen() == "" && picked.0 != "" && picked.0 != c.current {
      forall n | Matches(c, norm, address, n) ensures n == picked.0 {
        assert n in NamedMatches(c, norm, address);
      }
    }
    if picked.0 != "" && picked.0 in NamedMatches(c, norm, address) {
      assert Matches(c, norm, address, picked.0);
    }
  }

  /**
   * And the right login is used: one chosen by name if and only if it is for the address; otherwise the current one if it is;
   * otherwise the one login that is, if there is exactly one.
   */
  lemma RightLoginIsUsed(c: Config, norm: string -> string, given: Given, picked: (string, Context))
    requires norm("") == "" && Picks(c, norm, given, picked) && "" !in c.contexts
    ensures
      var address, chosen := Address(c, given), if given.contextFlag != "" then given.contextFlag else given.contextEnv;
      && (chosen != "" ==> picked.0 == if Matches(c, norm, address, chosen) then chosen else "")
      && (chosen == "" && Matches(c, norm, address, c.current) ==> picked.0 == c.current)
      && (chosen == "" && !Matches(c, norm, address, c.current) ==>
            && (picked.0 != "" <==> exists n :: OnlyMatch(c, norm, address, n))
            && (picked.0 != "" ==> OnlyMatch(c, norm, address, picked.0)))
  {
    var address := Address(c, given);
    FirstOfTwo(given.contextFlag, given.contextEnv);
    FirstOfTwo(given.Chosen(), c.current);
    var names := NamedMatches(c, norm, address);
    assert forall n :: n in names <==> Matches(c, norm, address, n);
    if n :| OnlyMatch(c, norm, address, n) {
      assert names == {n};
    }
    if names == {picked.0} {
      assert OnlyMatch(c, norm, address, picked.0);
    }
  }

  /** The one login for an address. */
  ghost predicate OnlyMatch(c: Config, norm: string -> string, address: string, name: string)
  {
    Matches(c, norm, address, name) && forall m :: Matches(c, norm, address, m) ==> m == name
  }

  /**
   * The empty name stands for no login, so a file that holds a login under it gives that login away: with no login chosen
   * or saved for the address, contextForAddress answers it whatever it was made for. It answers a login of another address
   * exactly when one is saved under the empty name, it is not for the address, and no named login is.
   */
  lemma EmptyNameIsAnsweredForOtherAddresses(c: Config, norm: string -> string, address: string, found: (string, Context))
    requires ForAddress(c, norm, address, found)
    ensures found.1 != NO_CONTEXT && !SameAddress(norm, found.1.url, address) <==>
            && "" in c.contexts && c.contexts[""] != NO_CONTEXT && !SameAddress(norm, c.contexts[""].url, address)
            && forall n :: n != "" ==> !Matches(c, norm, address, n)
  {
    var names := NamedMatches(c, norm, address);
    assert forall n :: n != "" && Matches(c, norm, address, n) ==> n in names;
    if names == {found.0} {
      assert Matches(c, norm, address, found.0);
    }
    if names != {} {
      var n :| n in names;
      assert Matches(c, norm, address, n);
    }
  }

  // ----- the commands that change what is saved

  datatype Identity = Identity(user: string, role: string, expiresAt: Option<int>)

  function LoginName(c: Config, name: string, given: Given): string
  {
    FirstSet([name, given.contextFlag, ContextName(Address(c, given))])
  }

  /** loginCmd's save step, for a sign-in that worked. */
  function AfterLogin(c: Config, norm: string -> string, id: string, url: string, token: string, me: Identity): Config
  {
    var saved := if SameAddress(norm, c.Saved(id).url, url) then c.Saved(id) else NO_CONTEXT;
    Config(id, c.contexts[id := saved.(url := url, token := token, user := me.user, role := me.role, expiresAt := me.expiresAt)])
  }

  function AfterLogout(c: Config, name: string): Config
  {
    if name !in c.contexts then c
    else c.(contexts := c.contexts[name := c.contexts[name].(token := "", user := "", role := "", expiresAt := None)])
  }

  function AfterSetContext(c: Config, name: string, project: string, environment: string): Config
  {
    if name !in c.contexts then c
    else
      var saved := c.contexts[name];
      c.(contexts := c.contexts[name := saved.(
           project := if project != "" then project else saved.project,
           environment := if environment != "" then environment else saved.environment)])
  }

  /** The configuration file, as the commands rewrite it. */
  class Cli {
    var config: Config

    constructor ()
      ensures config == Config("", map[])
    {
      config := Config("", map[]);
    }

    method Login(norm: string -> string, name: string, given: Given, token: string, me: Identity) returns (ok: bool)
      modifies this
      ensures ok == (Address(old(config), given) != "")
      ensures config == if ok then AfterLogin(old(config), norm, LoginName(old(config), name, given), Address(old(config), given), token, me) else old(config)
    {
      var resolved := Resolve(config, norm, given);
      var url := resolved.url;
      if url == "" {
        return false;
      }
      var id := FirstSet([name, given.contextFlag, ContextName(url)]);
      var saved := config.Saved(id);
      if !SameAddress(norm, saved.url, url) {
        saved := NO_CONTEXT;
      }
      saved := saved.(url := url, token := token, user := me.user, role := me.role);
      saved := saved.(expiresAt := me.expiresAt);
      config := Config(id, config.contexts[id := saved]);
      return true;
    }

    method Logout(contextFlag: string, contextEnv: string)
      modifies this
      ensures config == AfterLogout(old(config), FirstSet([contextFlag, contextEnv, old(config).current]))
    {
      var name := FirstSet([contextFlag, contextEnv, config.current]);
      if name !in config.contexts {
        return;
      }
      var saved := config.contexts[name].(token := "", user := "", role := "", expiresAt := None);
      config := config.(contexts := config.contexts[name := saved]);
    }

    method SetContext(argument: string, contextFlag: string, project: string, environment: string)
      modifies this
      ensures config == AfterSetContext(old(config), FirstSet([argument, contextFlag, old(config).current]), project, environment)
    {
      var name := FirstSet([argument, contextFlag, config.current]);
      if name !in config.contexts {
        return;
      }
      var saved := config.contexts[name];
      if project != "" {
        saved := saved.(project := project);
      }
      if environment != "" {
        saved := saved.(environment := environment);
      }
      config := config.(contexts := config.contexts[name := saved]);
    }
  }

  /** A logout forgets who was signed in under the name and how, and nothing else. */
  lemma LogoutForgets(c: Config, name: string)
    ensures
      var after := AfterLogout(c, name);
      && after.current == c.current && after.contexts.Keys == c.contexts.Keys
      && (forall n :: n in c.contexts && n != name ==> after.contexts[n] == c.contexts[n])
      && (name in c.contexts ==>
            var was, left := c.contexts[name], after.contexts[name];
            && left.token == "" && left.user == "" && left.role == "" && left.expiresAt == None
            && left.url == was.url && left.project == was.project && left.environment == was.environment)
  {
  }

  // ----- runs of commands

  /** A value a command saved, and the address of the login it was saved for. */
  datatype Entry = Entry(value: string, url: string)

  /** What is to be known of a name: where it was last signed in to, who is, and the token, project and environment kept for it. */
  datatype Line = Line(url: string, person: Option<Identity>, token: Option<Entry>, project: Option<Entry>, environment: Option<Entry>)

  const NO_LINE := Line("", None, None, None, None)

  /** What a run of commands should leave: the current name, and a line for each name that was signed in under. */
  datatype Book = Book(current: string, lines: map<string, Line>) {

    function Of(name: string): Line
    {
      if name in lines then lines[name] else NO_LINE
    }
  }

  datatype Command =
    | Login(name: string, given: Given, token: string, me: Identity)
    | Logout(contextFlag: string, contextEnv: string)
    | SetContext(argument: string, contextFlag: string, project: string, environment: string)
    | UseContext(name: string)

  function Either(a: string, b: string, c: string): string
  {
    if a != "" then a else if b != "" then b else c
  }

  /** Where a command goes: to the address that was given, by flag or else environment, or that of the login it is for. */
  function Target(b: Book, given: Given): string
  {
    TrimRight(Either(given.flags.url, given.env.url, b.Of(Either(given.contextFlag, given.contextEnv, b.current)).url), '/')
  }

  /** Signing in under a name: a name that is pointed at another address starts afresh, and keeps its defaults otherwise. */
  function SignedIn(line: Line, norm: string -> string, url: string, token: string, me: Identity): Line
  {
    var stays := SameAddress(norm, line.url, url);
    Line(url, Some(me), Some(Entry(token, url)), if stays then line.project else None, if stays then line.environment else None)
  }

  function SignedOut(line: Line): Line
  {
    line.(person := None, token := None)
  }

  function WithDefaults(line: Line, project: string, environment: string): Line
  {
    line.(project := if project == "" then line.project else Some(Entry(project, line.url)),
          environment := if environment == "" then line.environment else Some(Entry(environment, line.url)))
  }

  function BookAfter(b: Book, norm: string -> string, command: Command): Book
  {
    match command
    case Login(name, given, token, me) =>
      var url := Target(b, given);
      var id := Either(name, given.contextFlag, ContextName(url));
      if url == "" then b else Book(id, b.lines[id := SignedIn(b.Of(id), norm, url, token, me)])
    case Logout(contextFlag, contextEnv) =>
      var name := Either(contextFlag, contextEnv, b.current);
      if name in b.lines then b.(lines := b.lines[name := SignedOut(b.lines[name])]) else b
    case SetContext(argument, contextFlag, project, environment) =>
      var name := Either(argument, contextFlag, b.current);
      if name in b.lines then b.(lines := b.lines[name := WithDefaults(b.lines[name], project, environment)]) else b
    case UseContext(name) => if name in b.lines then b.(current := name) else b
  }

  /** What the commands do to the file. */
  function ConfigAfter(c: Config, norm: string -> string, command: Command): Config
  {
    match command
    case Login(name, given, token, me) =>
      if Address(c, given) == "" then c else AfterLogin(c, norm, LoginName(c, name, given), Address(c, given), token, me)
    case Logout(contextFlag, contextEnv) => AfterLogout(c, FirstSet([contextFlag, contextEnv, c.current]))
    case SetContext(argument, contextFlag, project, environment) =>
      AfterSetContext(c, FirstSet([argument, contextFlag, c.current]), project, environment)
    case UseContext(name) => if name in c.contexts then c.(current := name) else c
  }

  /** The same place: the same text, or the same address. */
  predicate SamePlace(norm: string -> string, a: string, b: string)
  {
    a == b || SameAddress(norm, a, b)
  }

  function ValueOf(entry: Option<Entry>): string
  {
    if entry.Some? then entry.value.value else ""
  }

  /** A saved login says exactly what its line does, and each value in it was saved for its address. */
  predicate Agrees(saved: Context, line: Line, norm: string -> string)
  {
    && saved.url == line.url
    && saved.token == ValueOf(line.token) && (line.token.Some? ==> line.token.value.url == saved.url)
    && saved.project == ValueOf(line.project) && (line.project.Some? ==> SamePlace(norm, line.project.value.url, saved.url))
    && saved.environment == ValueOf(line.environment) && (line.environment.Some? ==> SamePlace(norm, line.environment.value.url, saved.url))
    && Identity(saved.user, saved.role, saved.expiresAt) == (if line.person.Some? then line.person.value else Identity("", "", None))
  }

  ghost predicate ByTheBook(c: Config, b: Book, norm: string -> string)
  {
    && c.current == b.current && c.contexts.Keys == b.lines.Keys && "" !in b.lines
    && forall name :: name in b.lines ==> Agrees(c.contexts[name], b.lines[name], norm)
  }

  lemma TargetIsTheAddress(c: Config, b: Book, norm: string -> string, given: Given)
    requires ByTheBook(c, b, norm)
    ensures Address(c, given) == Target(b, given)
  {
    var name := Either(given.contextFlag, given.contextEnv, b.current);
    FirstOfTwo(given.contextFlag, given.contextEnv);
    FirstOfTwo(given.Chosen(), c.current);
    assert name in b.lines ==> Agrees(c.contexts[name], b.lines[name], norm);
    FirstOfThree(given.flags.url, given.env.url, c.Saved(name).url);
  }

  /** One line changed, and one login with it. */
  lemma OneLine(c: Config, b: Book, norm: string -> string, current: string, name: string, saved: Context, line: Line)
    requires ByTheBook(c, b, norm) && name != "" && Agrees(saved, line, norm)
    ensures ByTheBook(Config(current, c.contexts[name := saved]), Book(current, b.lines[name := line]), norm)
  {
  }

  lemma SignedInAgrees(saved: Context, line: Line, norm: string -> string, url: string, token: string, me: Identity)
    requires Agrees(saved, line, norm)
    ensures
      var kept := if SameAddress(norm, saved.url, url) then saved else NO_CONTEXT;
      Agrees(kept.(url := url, token := token, user := me.user, role := me.role, expiresAt := me.expiresAt), SignedIn(line, norm, url, token, me), norm)
  {
  }

  lemma CommandIsByTheBook(c: Config, b: Book, norm: string -> string, command: Command)
    requires ByTheBook(c, b, norm)
    ensures ByTheBook(ConfigAfter(c, norm, command), BookAfter(b, norm, command), norm)
  {
    match command
    case Login(name, given, token, me) => LoginIsByTheBook(c, b, norm, name, given, token, me);
    case Logout(contextFlag, contextEnv) => LogoutIsByTheBook(c, b, norm, contextFlag, contextEnv);
    case SetContext(argument, contextFlag, project, environment) => SetContextIsByTheBook(c, b, norm, argument, contextFlag, project, environment);
    case UseContext(name) =>
  }

  lemma LoginIsByTheBook(c: Config, b: Book, norm: string -> string, name: string, given: Given, token: string, me: Identity)
    requires ByTheBook(c, b, norm)
    ensures ByTheBook(ConfigAfter(c, norm, Login(name, given, token, me)), BookAfter(b, norm, Login(name, given, token, me)), norm)
  {
    TargetIsTheAddress(c, b, norm, given);
    var url := Target(b, given);
    var id := Either(name, given.contextFlag, ContextName(url));
    FirstOfThree(name, given.contextFlag, ContextName(url));
    assert Agrees(c.Saved(id), b.Of(id), norm) by {
      assert id in b.lines ==> Agrees(c.contexts[id], b.lines[id], norm);
    }
    SignedInAgrees(c.Saved(id), b.Of(id), norm, url, token, me);
    var after := AfterLogin(c, norm, id, url, token, me);
    OneLine(c, b, norm, id, id, after.contexts[id], SignedIn(b.Of(id), norm, url, token, me));
  }

  lemma LogoutIsByTheBook(c: Config, b: Book, norm: string -> string, contextFlag: string, contextEnv: string)
    requires ByTheBook(c, b, norm)
    ensures ByTheBook(ConfigAfter(c, norm, Logout(contextFlag, contextEnv)), BookAfter(b, norm, Logout(contextFlag, contextEnv)), norm)
  {
    FirstOfThree(contextFlag, contextEnv, c.current);
    var name := Either(contextFlag, contextEnv, b.current);
    if name in b.lines {
      assert Agrees(c.contexts[name], b.lines[name], norm);
      var after := AfterLogout(c, name);
      OneLine(c, b, norm, b.current, name, after.contexts[name], SignedOut(b.lines[name]));
    }
  }

  lemma SetContextIsByTheBook(
    c: Config, b: Book, norm: string -> string, argument: string, contextFlag: string, project: string, environment: string)
    requires ByTheBook(c, b, norm)
    ensures ByTheBook(ConfigAfter(c, norm, SetContext(argument, contextFlag, project, environment)),
                      BookAfter(b, norm, SetContext(argument, contextFlag, project, environment)), norm)
  {
    FirstOfThree(argument, contextFlag, c.current);
    var name := Either(argument, contextFlag, b.current);
    if name in b.lines {
      assert Agrees(c.contexts[name], b.lines[name], norm);
      var after := AfterSetContext(c, name, project, environment);
      OneLine(c, b, norm, b.current, name, after.contexts[name], WithDefaults(b.lines[name], project, environment));
    }
  }

  function Run(norm: string -> string, commands: seq<Command>): Config
  {
    if commands == [] then Config("", map[]) else ConfigAfter(Run(norm, commands[..|commands| - 1]), norm, commands[|commands| - 1])
  }

  function BookOf(norm: string -> string, commands: seq<Command>): Book
  {
    if commands == [] then Book("", map[]) else BookAfter(BookOf(norm, commands[..|commands| - 1]), norm, commands[|commands| - 1])
  }

  /**
   * After any run of commands the file says exactly what the last commands about each name set or cleared: the address, who is
   * signed in there and with which token, the project and the environment; and each was saved for the login's address.
   */
  lemma {:induction false} RunIsByTheBook(norm: string -> string, commands: seq<Command>)
    ensures ByTheBook(Run(norm, commands), BookOf(norm, commands), norm)
  {
    if commands != [] {
      var n := |commands| - 1;
      RunIsByTheBook(norm, commands[..n]);
      CommandIsByTheBook(Run(norm, commands[..n]), BookOf(norm, commands[..n]), norm, commands[n]);
    }
  }

  /** What a command runs with: what was given for it, a flag before the environment, or else what is saved, and that only for its address. */
  ghost predicate GivenOrSaved(norm: string -> string, value: string, flag: string, env: string, saved: Option<Entry>, address: string)
  {
    value == Either(flag, env, ValueOf(saved)) && (saved.Some? ==> SameAddress(norm, saved.value.url, address))
  }

  /**
   * After any run of commands, the next one runs with exactly what was given for it or what the last commands saved under
   * the login it uses, and that was saved for the very address it runs against.
   */
  lemma NothingGoesToAnotherAddress(norm: string -> string, commands: seq<Command>, given: Given, r: Resolved)
    requires norm("") == "" && ResolvesTo(Run(norm, commands), norm, given, r)
    ensures
      var b := BookOf(norm, commands);
      var line := b.Of(r.contextName);
      && r.url == Target(b, given)
      && GivenOrSaved(norm, r.token, given.flags.token, given.env.token, line.token, r.url)
      && GivenOrSaved(norm, r.project, given.flags.project, given.env.project, line.project, r.url)
      && GivenOrSaved(norm, r.environment, given.flags.environment, given.env.environment, line.environment, r.url)
  {
    var c, b := Run(norm, commands), BookOf(norm, commands);
    var picked :| Picks(c, norm, given, picked) && r == Combine(given, Address(c, given), picked);
    RunIsByTheBook(norm, commands);
    TargetIsTheAddress(c, b, norm, given);
    SavedLoginBelongsToItsAddress(c, norm, given, picked);
    if picked.0 != "" {
      assert Agrees(c.contexts[picked.0], b.lines[picked.0], norm);
    }
    FirstOfThree(given.flags.token, given.env.token, picked.1.token);
    FirstOfThree(given.flags.project, given.env.project, picked.1.project);
    FirstOfThree(given.flags.environment, given.env.environment, picked.1.environment);
  }

  // ----- logged out

  /** A command that signs in under a name. */
  predicate SignsIn(b: Book, command: Command, name: string)
  {
    command.Login? && name == Either(command.name, command.given.contextFlag, ContextName(Target(b, command.given)))
  }

  lemma OnlySigningInGivesAToken(b: Book, norm: string -> string, command: Command, name: string)
    requires b.Of(name).token.None? && !SignsIn(b, command, name)
    ensures BookAfter(b, norm, command).Of(name).token.None?
  {
  }

  lemma BookStep(norm: string -> string, commands: seq<Command>, n: nat)
    requires n < |commands|
    ensures BookOf(norm, commands[..n + 1]) == BookAfter(BookOf(norm, commands[..n]), norm, commands[n])
  {
    assert commands[..n + 1][..n] == commands[..n];
  }

  /** The n-th command of a run signs in under a name, or signs out of it. */
  ghost predicate SignsInAt(norm: string -> string, commands: seq<Command>, n: nat, name: string)
    requires n < |commands|
  {
    SignsIn(BookOf(norm, commands[..n]), commands[n], name)
  }

  ghost predicate SignsOutAt(norm: string -> string, commands: seq<Command>, n: nat, name: string)
    requires n < |commands|
  {
    commands[n].Logout? && name == Either(commands[n].contextFlag, commands[n].contextEnv, BookOf(norm, commands[..n]).current)
  }

  lemma {:induction false} StaysLoggedOut(norm: string -> string, commands: seq<Command>, k: nat, n: nat, name: string)
    requires k < n <= |commands| && SignsOutAt(norm, commands, k, name)
    requires forall i :: k < i < n ==> !SignsInAt(norm, commands, i, name)
    ensures BookOf(norm, commands[..n]).Of(name).token.None?
    decreases n
  {
    BookStep(norm, commands, n - 1);
    if k < n - 1 {
      StaysLoggedOut(norm, commands, k, n - 1, name);
      assert !SignsInAt(norm, commands, n - 1, name);
      OnlySigningInGivesAToken(BookOf(norm, commands[..n - 1]), norm, commands[n - 1], name);
    }
  }

  /** A command that uses a login which was logged out, and not in again since, has a token only if one was given for it. */
  lemma LoggedOutHasNoToken(norm: string -> string, commands: seq<Command>, k: nat, given: Given, r: Resolved)
    requires norm("") == "" && ResolvesTo(Run(norm, commands), norm, given, r)
    requires k < |commands| && SignsOutAt(norm, commands, k, r.contextName)
    requires forall i :: k < i < |commands| ==> !SignsInAt(norm, commands, i, r.contextName)
    ensures r.token == Either(given.flags.token, given.env.token, "")
  {
    StaysLoggedOut(norm, commands, k, |commands|, r.contextName);
    assert commands[..|commands|] == commands;
    NothingGoesToAnotherAddress(norm, commands, given, r);
  }
}
