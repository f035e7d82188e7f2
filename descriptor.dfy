/**
 * The dynamic route descriptor `name/controller:action` that `Router::castRoute`
 * recognises with the case-insensitive PCRE pattern
 *
 *     ^(?:(?P<name>[^/]+)/)?(?:(?P<controller>[^:]+):+)?(?P<action>[a-z_\-]+)$
 *
 * `Parse` is a hand-written matcher that reports the same groups PCRE reports:
 * a subject matches when some `Split` of it is well formed (`Parse`,
 * `ParseComplete`), and among the splits PCRE prefers the one in which the
 * optional `name/` group takes part (`ParseComplete`). Strings are PHP byte
 * strings, one `char` per byte; without the `u` modifier only ASCII letters are
 * letters.
 */
module Descriptor {
  import opened Wrappers

  /** `[a-z_\-]` under the `i` flag. */
  predicate IsActionChar(c: char) {
    'a' <= c <= 'z' || 'A' <= c <= 'Z' || c == '_' || c == '-'
  }

  /** `[a-z_\-]+` under the `i` flag. */
  predicate IsAction(s: string) {
    |s| > 0 && forall i :: 0 <= i < |s| ==> IsActionChar(s[i])
  }

  /** `[^/]+` */
  predicate IsName(s: string) {
    |s| > 0 && '/' !in s
  }

  /** `[^:]+` */
  predicate IsController(s: string) {
    |s| > 0 && ':' !in s
  }

  function Repeat(c: char, k: nat): string {
    seq(k, _ => c)
  }

  /** What follows the optional `name/` group: `(?:controller:+)?action`. */
  datatype Tail = Tail(controller: Option<string>, colons: nat, action: string)

  /**
   * One way of reading a subject against the pattern. `newline` records that the
   * subject ends in a "\n" which `$` let through (PCRE's `$` without the `D`
   * modifier also matches just before a final newline).
   */
  datatype Split = Split(name: Option<string>, tail: Tail, newline: bool)

  ghost predicate TailWellFormed(t: Tail) {
    && (t.controller.Some? ==> IsController(t.controller.value) && t.colons >= 1)
    && (t.controller.None? ==> t.colons == 0)
    && IsAction(t.action)
  }

  /** Every group holds what its sub-pattern accepts. */
  ghost predicate WellFormed(p: Split) {
    (p.name.Some? ==> IsName(p.name.value)) && TailWellFormed(p.tail)
  }

  function TailText(t: Tail): string {
    (if t.controller.Some? then t.controller.value + Repeat(':', t.colons) else "") + t.action
  }

  /** The subject a split reads. */
  function Text(p: Split): string {
    (if p.name.Some? then p.name.value + "/" else "") + TailText(p.tail) + (if p.newline then "\n" else "")
  }

  /** The position of the first occurrence of `c` in `s`. */
  function IndexOf(s: string, c: char): (r: Option<nat>)
    ensures r.Some? ==> r.value < |s| && s[r.value] == c && c !in s[..r.value]
    ensures r.None? ==> c !in s
  {
    if s == [] then None
    else if s[0] == c then Some(0)
    else match IndexOf(s[1..], c)
      case Some(i) => assert s[..i + 1] == [s[0]] + s[1..][..i]; Some(i + 1)
      case None => None
  }

  /** The end of the run of `c` that starts at `j`. */
  function RunEnd(s: string, c: char, j: nat): (k: nat)
    requires j <= |s|
    ensures j <= k <= |s|
    ensures forall i :: j <= i < k ==> s[i] == c
    ensures k == |s| || s[k] != c
    decreases |s| - j
  {
    if j < |s| && s[j] == c then RunEnd(s, c, j + 1) else j
  }

  /**
   * `(?:([^:]+):+)?([a-z_\-]+)$` on what follows the name. `[^:]+` can only stop
   * at the first colon and `:+` must take the whole run of colons, since the
   * action holds neither, so backtracking never finds a second reading.
   */
  function ParseTail(t: string): Option<Tail> {
    match IndexOf(t, ':')
    case None => if IsAction(t) then Some(Tail(None, 0, t)) else None
    case Some(j) =>
      var k := RunEnd(t, ':', j);
      if j > 0 && IsAction(t[k..]) then Some(Tail(Some(t[..j]), k - j, t[k..])) else None
  }

  /** `$` lets a single final "\n" through. */
  predicate EndsInNewline(s: string) {
    |s| > 0 && s[|s| - 1] == '\n'
  }

  /** The part of the subject the groups have to cover. */
  function Body(s: string): string {
    if EndsInNewline(s) then s[..|s| - 1] else s
  }

  /**
   * The reading in which the optional name group takes part: `[^/]+/` can only end
   * at the first slash.
   */
  function ReadNamed(body: string): Option<(string, Tail)> {
    match IndexOf(body, '/')
    case None => None
    case Some(i) =>
      if i == 0 then None
      else match ParseTail(body[i + 1..])
        case Some(t) => Some((body[..i], t))
        case None => None
  }

  /**
   * The groups over the body: the name group is tried first, and when the rest
   * does not match after it PCRE backtracks to the reading without a name.
   */
  function ParseBody(body: string): Option<(Option<string>, Tail)> {
    match ReadNamed(body)
    case Some((n, t)) => Some((Some(n), t))
    case None =>
      match ParseTail(body)
      case Some(t) => Some((None, t))
      case None => None
  }

  /**
   * `preg_match` of the descriptor pattern: the groups it reports, if it matches.
   * What it reports is a reading of the subject, so the pattern did match.
   */
  function Parse(s: string): (r: Option<Split>)
    ensures r.Some? ==> WellFormed(r.value) && Text(r.value) == s
  {
    match ParseBody(Body(s))
    case Some((n, t)) =>
      BodySplit(s);
      ParseBodySound(Body(s));
      Some(Split(n, t, EndsInNewline(s)))
    case None => None
  }

  /** PHP's `empty()` on a string: `""` and `"0"` are empty. */
  predicate Empty(s: string) {
    s == "" || s == "0"
  }

  lemma IndexOfAt(s: string, c: char, i: nat)
    requires i < |s| && s[i] == c && c !in s[..i]
    ensures IndexOf(s, c) == Some(i)
  {
  }

  lemma RunEndAt(s: string, c: char, j: nat, k: nat)
    requires j <= k <= |s|
    requires forall i :: j <= i < k ==> s[i] == c
    requires k == |s| || s[k] != c
    ensures RunEnd(s, c, j) == k
  {
  }

  /** What `ParseTail` reports is a reading of its input. */
  lemma TailSound(t: string)
    requires ParseTail(t).Some?
    ensures TailWellFormed(ParseTail(t).value) && TailText(ParseTail(t).value) == t
  {
    var j := IndexOf(t, ':');
    if j.Some? {
      var k := RunEnd(t, ':', j.value);
      assert Repeat(':', k - j.value) == t[j.value..k];
      assert t == t[..j.value] + t[j.value..k] + t[k..];
    }
  }

  /** Every reading of a tail is the one `ParseTail` reports. */
  lemma TailComplete(x: Tail)
    requires TailWellFormed(x)
    ensures ParseTail(TailText(x)) == Some(x)
  {
    var t := TailText(x);
    if x.controller.None? {
      assert t == x.action;
      assert ':' !in t by {
        forall i | 0 <= i < |t| ensures t[i] != ':' { assert IsActionChar(t[i]); }
      }
    } else {
      TailCompleteController(x);
    }
  }

  /** The controller case of `TailComplete`: the first colon ends it and the colon run is taken whole. */
  lemma TailCompleteController(x: Tail)
    requires TailWellFormed(x) && x.controller.Some?
    ensures ParseTail(TailText(x)) == Some(x)
  {
    var t := TailText(x);
    var c := x.controller.value;
    var j := |c|;
    var k := j + x.colons;
    assert t == c + Repeat(':', x.colons) + x.action;
    assert t[..j] == c;
    assert t[k..] == x.action;
    assert t[j] == ':';
    IndexOfAt(t, ':', j);
    assert t[k] == x.action[0];
    RunEndAt(t, ':', j, k);
  }

  lemma ReadNamedSound(body: string)
    requires ReadNamed(body).Some?
    ensures IsName(ReadNamed(body).value.0) && TailWellFormed(ReadNamed(body).value.1)
    ensures ReadNamed(body).value.0 + "/" + TailText(ReadNamed(body).value.1) == body
  {
    var i := IndexOf(body, '/').value;
    TailSound(body[i + 1..]);
    assert body == body[..i] + "/" + body[i + 1..];
  }

  lemma ReadNamedComplete(n: string, t: Tail)
    requires IsName(n) && TailWellFormed(t)
    ensures ReadNamed(n + "/" + TailText(t)) == Some((n, t))
  {
    var body := n + "/" + TailText(t);
    assert body[..|n|] == n;
    assert body[|n| + 1..] == TailText(t);
    IndexOfAt(body, '/', |n|);
    TailComplete(t);
  }

  lemma BodySplit(s: string)
    ensures s == Body(s) + (if EndsInNewline(s) then "\n" else "")
  {
  }

  /** What `ParseBody` reports is a reading of the body. */
  lemma ParseBodySound(body: string)
    requires ParseBody(body).Some?
    ensures var (n, t) := ParseBody(body).value;
            (n.Some? ==> IsName(n.value)) && TailWellFormed(t)
            && (if n.Some? then n.value + "/" else "") + TailText(t) == body
  {
    if ReadNamed(body).Some? {
      ReadNamedSound(body);
    } else {
      TailSound(body);
    }
  }

  /** The subject of a reading ends in "\n" exactly when the reading says so. */
  lemma TextNewline(p: Split)
    requires WellFormed(p)
    ensures EndsInNewline(Text(p)) == p.newline
    ensures Body(Text(p)) == (if p.name.Some? then p.name.value + "/" else "") + TailText(p.tail)
  {
    var body := (if p.name.Some? then p.name.value + "/" else "") + TailText(p.tail);
    var a := p.tail.action;
    assert body[|body| - 1] == a[|a| - 1];
    assert IsActionChar(a[|a| - 1]);
    assert Text(p) == body + (if p.newline then "\n" else "");
  }

  /**
   * Every reading of a subject is found, and PCRE's preference is followed: when a
   * reading with a name exists it is the one reported, and when the reported
   * reading has no name it is the only reading there is.
   */
  lemma ParseComplete(p: Split)
    requires WellFormed(p)
    ensures Parse(Text(p)).Some?
    ensures p.name.Some? ==> Parse(Text(p)) == Some(p)
    ensures Parse(Text(p)).value.name.None? ==> Parse(Text(p)) == Some(p)
  {
    var s := Text(p);
    TextNewline(p);
    var body := Body(s);
    if p.name.Some? {
      ReadNamedComplete(p.name.value, p.tail);
      assert ParseBody(body) == Some((p.name, p.tail));
    } else {
      assert body == TailText(p.tail);
      TailComplete(p.tail);
      if ReadNamed(body).None? {
        assert ParseBody(body) == Some((None, p.tail));
      }
    }
  }

  /** A reading with a name needs a slash in the subject. */
  lemma NamedNeedsSlash(s: string)
    requires Parse(s).Some? && Parse(s).value.name.Some?
    ensures '/' in s
  {
    var n := Parse(s).value.name.value;
    assert s[|n|] == '/';
  }

  /** A reading without a name whose controller has no slash is the one reported. */
  lemma ParseUnnamed(p: Split)
    requires WellFormed(p) && p.name.None?
    requires p.tail.controller.Some? ==> '/' !in p.tail.controller.value
    ensures Parse(Text(p)) == Some(p)
  {
    TextNewline(p);
    var body := TailText(p.tail);
    assert '/' !in body by {
      var a := p.tail.action;
      assert forall i :: 0 <= i < |a| ==> a[i] != '/' by {
        forall i | 0 <= i < |a| ensures a[i] != '/' { assert IsActionChar(a[i]); }
      }
      if p.tail.controller.Some? {
        var c := p.tail.controller.value;
        var colons := Repeat(':', p.tail.colons);
        assert body == c + colons + a;
        assert '/' !in colons;
      }
    }
    ParseComplete(p);
  }

  /** `controller:action` reads as a controller and an action, with no name. */
  lemma ParseControllerAction()
    ensures Parse("users:show") == Some(Split(None, Tail(Some("users"), 1, "show"), false))
  {
    var p := Split(None, Tail(Some("users"), 1, "show"), false);
    assert Text(p) == "users:show";
    ParseUnnamed(p);
  }

  /** `name/controller::action`: the name is taken and the colon run is swallowed. */
  lemma ParseNamedControllerAction()
    ensures Parse("blog/post::view") == Some(Split(Some("blog"), Tail(Some("post"), 2, "view"), false))
  {
    var p := Split(Some("blog"), Tail(Some("post"), 2, "view"), false);
    assert Text(p) == "blog/post::view";
    ParseComplete(p);
  }

  /** `$` lets a final newline through, and the groups are those of the subject without it. */
  lemma ParseTrailingNewline()
    ensures Parse("users:show\n") == Some(Split(None, Tail(Some("users"), 1, "show"), true))
  {
    var p := Split(None, Tail(Some("users"), 1, "show"), true);
    assert Text(p) == "users:show\n";
    ParseUnnamed(p);
  }

  /**
   * `a/:b`: after the name `a` nothing matches `:b`, so PCRE gives the name up and
   * reads `a/` as the controller.
   */
  lemma ParseBacktracksPastName()
    ensures Parse("a/:b") == Some(Split(None, Tail(Some("a/"), 1, "b"), false))
  {
    var s := "a/:b";
    assert IndexOf(s, '/') == Some(1);
    assert IndexOf(s[2..], ':') == Some(0);
    assert ReadNamed(s) == None;
    var p := Split(None, Tail(Some("a/"), 1, "b"), false);
    assert Text(p) == s;
    ParseComplete(p);
  }

  /** Without a slash, a colon or a final newline, the subject must be an action. */
  lemma ParseBare(s: string)
    requires '/' !in s && ':' !in s && !EndsInNewline(s)
    ensures Parse(s) == if IsAction(s) then Some(Split(None, Tail(None, 0, s), false)) else None
  {
    assert Body(s) == s;
    assert ReadNamed(s).None?;
  }

  /** A descriptor whose action has a digit is rejected. */
  lemma ParseRejectsDigits()
    ensures Parse("123abc") == None
  {
    var s := "123abc";
    assert !IsActionChar(s[0]);
    ParseBare(s);
  }
}
