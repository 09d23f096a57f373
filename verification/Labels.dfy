/** Labels derived from arbitrary text, and the set of hosts a tunnel answers on. */
module Labels {
  import opened Options
  import opened Naming

  const MAX := 63
  const CUT := 56

  // The stages of Sanitize.

  function Keep(c: char): char {
    if LabelChar(c) then c else '-'
  }

  function Replaced(s: string, lower: char -> char): string {
    if |s| == 0 then "" else Replaced(s[..|s| - 1], lower) + [Keep(lower(s[|s| - 1]))]
  }

  /** Runs of hyphens become one. */
  function Collapse(s: string): string {
    if |s| == 0 then ""
    else if |s| >= 2 && s[|s| - 1] == '-' && s[|s| - 2] == '-' then Collapse(s[..|s| - 1])
    else Collapse(s[..|s| - 1]) + [s[|s| - 1]]
  }

  function TrimRight(s: string): string {
    if |s| > 0 && s[|s| - 1] == '-' then TrimRight(s[..|s| - 1]) else s
  }

  function TrimLeft(s: string): string {
    if |s| > 0 && s[0] == '-' then TrimLeft(s[1..]) else s
  }

  function Truncate(s: string, hash: string -> string): string {
    if |s| <= MAX then s else TrimRight(s[..CUT]) + "-" + hash(s)
  }

  function Sanitized(s: string, lower: char -> char, hash: string -> string): string {
    Truncate(TrimRight(TrimLeft(Collapse(Replaced(s, lower)))), hash)
  }

  /** The hash contributes six hexadecimal digits. */
  ghost predicate SixHex(hash: string -> string) {
    forall s :: |hash(s)| == 6 && forall i :: 0 <= i < 6 ==> AlNum(hash(s)[i])
  }

  // What each stage ensures.

  /** Lower-casing aside, letters, digits and hyphens stay and everything else becomes a hyphen, character by character. */
  lemma {:induction false} ReplacedAt(s: string, lower: char -> char, i: nat)
    requires i < |s|
    ensures |Replaced(s, lower)| == |s|
    ensures Replaced(s, lower)[i] == if 'a' <= lower(s[i]) <= 'z' || '0' <= lower(s[i]) <= '9' then lower(s[i]) else '-'
  {
    if |s| > 1 { ReplacedAt(s[..|s| - 1], lower, if i < |s| - 1 then i else 0); }
  }

  predicate AllLabel(s: string) {
    forall i :: 0 <= i < |s| ==> LabelChar(s[i])
  }

  ghost predicate NoDouble(s: string) {
    forall i, j :: 0 <= i < j < |s| && j == i + 1 ==> s[i] != '-' || s[j] != '-'
  }

  /** Label characters, no hyphen at either end, no two hyphens in a row. */
  ghost predicate Tidy(s: string) {
    AllLabel(s) && NoDouble(s) && (|s| > 0 ==> s[0] != '-' && s[|s| - 1] != '-')
  }

  lemma {:induction false} ReplacedIsLabel(s: string, lower: char -> char)
    ensures |Replaced(s, lower)| == |s|
    ensures forall i :: 0 <= i < |s| ==> Replaced(s, lower)[i] == Keep(lower(s[i]))
  {
    if |s| > 0 { ReplacedIsLabel(s[..|s| - 1], lower); }
  }

  lemma {:induction false} CollapseTidies(s: string)
    requires AllLabel(s)
    ensures AllLabel(Collapse(s)) && NoDouble(Collapse(s))
    ensures |s| > 0 ==> |Collapse(s)| > 0 && Collapse(s)[|Collapse(s)| - 1] == s[|s| - 1]
  {
    if |s| > 0 { CollapseTidies(s[..|s| - 1]); }
  }

  /** One more character after a collapsed text, unless it repeats a hyphen. */
  lemma CollapseStep(rest: string, last: char)
    requires Collapse(rest) == rest && (|rest| == 0 || last != '-' || rest[|rest| - 1] != '-')
    ensures Collapse(rest + [last]) == rest + [last]
  {
    var s := rest + [last];
    assert s[..|s| - 1] == rest;
    assert |s| >= 2 ==> s[|s| - 2] == rest[|rest| - 1];
  }

  lemma NoDoubleSplits(rest: string, last: char)
    requires NoDouble(rest + [last])
    ensures NoDouble(rest) && (|rest| == 0 || last != '-' || rest[|rest| - 1] != '-')
  {
    var s := rest + [last];
    assert forall i :: 0 <= i < |rest| ==> s[i] == rest[i];
    assert s[|rest|] == last;
  }

  lemma {:induction false} CollapseKeepsTidy(s: string)
    requires NoDouble(s)
    ensures Collapse(s) == s
  {
    if |s| > 0 {
      var rest, last := s[..|s| - 1], s[|s| - 1];
      assert s == rest + [last];
      NoDoubleSplits(rest, last);
      CollapseKeepsTidy(rest);
      CollapseStep(rest, last);
    }
  }

  lemma {:induction false} TrimRightTidies(s: string)
    requires AllLabel(s) && NoDouble(s)
    ensures TrimRight(s) <= s && NoDouble(TrimRight(s)) && AllLabel(TrimRight(s))
    ensures |TrimRight(s)| > 0 ==> TrimRight(s)[|TrimRight(s)| - 1] != '-'
    ensures |s| > 0 && s[0] != '-' ==> |TrimRight(s)| > 0
    ensures |s| > 0 && s[|s| - 1] != '-' ==> TrimRight(s) == s
  {
    if |s| > 0 && s[|s| - 1] == '-' { TrimRightTidies(s[..|s| - 1]); }
  }

  lemma {:induction false} TrimLeftTidies(s: string)
    requires AllLabel(s) && NoDouble(s)
    ensures NoDouble(TrimLeft(s)) && AllLabel(TrimLeft(s))
    ensures |TrimLeft(s)| > 0 ==> TrimLeft(s)[0] != '-'
    ensures |s| > 0 && s[0] != '-' ==> TrimLeft(s) == s
  {
    if |s| > 0 && s[0] == '-' { TrimLeftTidies(s[1..]); }
  }

  lemma TrimmedIsTidy(s: string)
    requires AllLabel(s) && NoDouble(s)
    ensures Tidy(TrimRight(TrimLeft(s)))
    ensures Tidy(s) ==> TrimRight(TrimLeft(s)) == s
  {
    TrimLeftTidies(s);
    TrimRightTidies(TrimLeft(s));
  }

  /** The truncated form is still tidy, and short. */
  lemma TruncateTidies(s: string, hash: string -> string)
    requires Tidy(s) && SixHex(hash)
    ensures Tidy(Truncate(s, hash)) && |Truncate(s, hash)| <= MAX
    ensures |s| > 0 ==> |Truncate(s, hash)| > 0
  {
    if |s| > MAX {
      var head := s[..CUT];
      assert AllLabel(head) && NoDouble(head);
      TrimRightTidies(head);
      JoinTidies(TrimRight(head), hash(s));
    }
  }

  lemma JoinTidies(a: string, b: string)
    requires Tidy(a) && |a| > 0 && |b| > 0 && forall i :: 0 <= i < |b| ==> AlNum(b[i])
    ensures Tidy(a + "-" + b)
  {
    var s := a + "-" + b;
    forall i | 0 <= i < |s| ensures LabelChar(s[i]) && (i > |a| ==> s[i] != '-') && (i < |a| ==> s[i] == a[i]) {
      if i > |a| { IndexAfter(a + "-", b, i); }
    }
  }

  /** What is left of a text before the length is looked at. */
  function Tidied(s: string, lower: char -> char): string {
    TrimRight(TrimLeft(Collapse(Replaced(s, lower))))
  }

  /** A text that tidies to at most 63 characters is kept whole; a longer one keeps a beginning of at most 56, followed by
      a hyphen and the hash of the whole tidied text, so that two of them collide only if their hashes do. */
  lemma LongTextsKeepTheirHash(s: string, lower: char -> char, hash: string -> string)
    requires SixHex(hash)
    ensures var tidy, r := Tidied(s, lower), Sanitized(s, lower, hash);
            if |tidy| <= 63 then r == tidy
            else
              && |r| >= 7 && r[|r| - 6..] == hash(tidy) && r[|r| - 7] == '-'
              && r[..|r| - 7] <= tidy && |r| - 7 <= 56
              && forall i :: |r| - 7 <= i < 56 ==> tidy[i] == '-'
  {
    ReplacedIsLabel(s, lower);
    CollapseTidies(Replaced(s, lower));
    TrimmedIsTidy(Collapse(Replaced(s, lower)));
    var tidy := Tidied(s, lower);
    if |tidy| > 63 {
      TrimRightCutsHyphens(tidy[..56]);
      HashAtTheEnd(TrimRight(tidy[..56]), hash(tidy), tidy);
    }
  }

  lemma HashAtTheEnd(a: string, h: string, tidy: string)
    requires |h| == 6 && |tidy| > 56 && a <= tidy[..56] && forall i :: |a| <= i < 56 ==> tidy[..56][i] == '-'
    ensures var r := a + "-" + h;
            && |r| >= 7 && r[|r| - 6..] == h && r[|r| - 7] == '-' && r[..|r| - 7] <= tidy && |r| - 7 <= 56
            && forall i :: |r| - 7 <= i < 56 ==> tidy[i] == '-'
  {
    var r := a + "-" + h;
    assert r == a + ("-" + h);
    assert r[..|r| - 7] == a;
    assert r[|r| - 6..] == h;
    assert forall i :: 0 <= i < 56 ==> tidy[..56][i] == tidy[i];
  }

  lemma {:induction false} TrimRightCutsHyphens(s: string)
    ensures TrimRight(s) <= s && forall i :: |TrimRight(s)| <= i < |s| ==> s[i] == '-'
  {
    if |s| > 0 && s[|s| - 1] == '-' { TrimRightCutsHyphens(s[..|s| - 1]); }
  }

  /** Every input gives the empty string or a valid label, tidy in either case. */
  lemma SanitizedIsLabel(s: string, lower: char -> char, hash: string -> string)
    requires SixHex(hash)
    ensures Sanitized(s, lower, hash) == "" || ValidLabel(Sanitized(s, lower, hash))
    ensures Tidy(Sanitized(s, lower, hash)) && |Sanitized(s, lower, hash)| <= MAX
  {
    var r := Replaced(s, lower);
    ReplacedIsLabel(s, lower);
    CollapseTidies(r);
    TrimmedIsTidy(Collapse(r));
    TruncateTidies(TrimRight(TrimLeft(Collapse(r))), hash);
    TidyIsLabel(Sanitized(s, lower, hash));
  }

  lemma TidyIsLabel(r: string)
    requires Tidy(r) && |r| <= MAX
    ensures r == "" || ValidLabel(r)
  {
  }

  /** The fixed points are exactly the empty string and the valid labels without a double hyphen. */
  lemma FixedPoints(s: string, lower: char -> char, hash: string -> string)
    requires SixHex(hash) && Lowers(lower)
    ensures Sanitized(s, lower, hash) == s <==> s == "" || (ValidLabel(s) && NoDouble(s))
  {
    SanitizedIsLabel(s, lower, hash);
    if s == "" || (ValidLabel(s) && NoDouble(s)) {
      ReplacedIsLabel(s, lower);
      assert Replaced(s, lower) == s;
      CollapseKeepsTidy(s);
      TrimmedIsTidy(s);
    }
  }

  /** Applying it twice changes nothing. */
  lemma SanitizeIsIdempotent(s: string, lower: char -> char, hash: string -> string)
    requires SixHex(hash) && Lowers(lower)
    ensures Sanitized(Sanitized(s, lower, hash), lower, hash) == Sanitized(s, lower, hash)
  {
    SanitizedIsLabel(s, lower, hash);
    FixedPoints(Sanitized(s, lower, hash), lower, hash);
  }

  /** Sanitize as it is written: a pass over the text, then the clean-up. */
  method Sanitize(s: string, lower: char -> char, hash: string -> string) returns (r: string)
    requires SixHex(hash)
    ensures r == Sanitized(s, lower, hash)
    ensures r == "" || ValidLabel(r)
  {
    var b := "";
    for i := 0 to |s|
      invariant b == Replaced(s[..i], lower)
    {
      var c := lower(s[i]);
      assert s[..i + 1][..i] == s[..i];
      if LabelChar(c) { b := b + [c]; } else { b := b + ['-']; }
    }
    assert s[..|s|] == s;
    r := Truncate(TrimRight(TrimLeft(Collapse(b))), hash);
    SanitizedIsLabel(s, lower, hash);
  }

  // Hosts.

  datatype Domain = Domain(domain: string, primary: bool)
  datatype Scope = Scope(slugs: seq<string>, primarySlug: string, domains: seq<Domain>)
  predicate NoDuplicates(hosts: seq<string>) {
    forall i, j :: 0 <= i < j < |hosts| ==> hosts[i] != hosts[j]
  }

  /** Appends a host that is neither empty nor listed. */
  method AddHost(hosts: seq<string>, h: string) returns (r: seq<string>)
    requires NoDuplicates(hosts)
    ensures NoDuplicates(r) && hosts <= r
    ensures forall x :: x in r <==> x in hosts || (x == h && h != "")
  {
    if h != "" && h !in hosts { return hosts + [h]; }
    return hosts;
  }

  /** The slugs whose default-shape hosts a tunnel answers on. */
  function BoundSlugs(scope: Scope, slug: string): seq<string> {
    if |scope.slugs| == 0 then [slug] else scope.slugs
  }

  /** The last domain marked primary, or "". */
  function PrimaryDomain(domains: seq<Domain>): string {
    if |domains| == 0 then ""
    else if domains[|domains| - 1].primary then domains[|domains| - 1].domain
    else PrimaryDomain(domains[..|domains| - 1])
  }

  ghost predicate IsSlugHost(h: string, name: string, slugs: seq<string>, base: string, shape: Shape) {
    exists s :: s in slugs && h == Hostname(name, s, base, shape)
  }

  ghost predicate IsDomainHost(h: string, name: string, domains: seq<Domain>) {
    exists d :: d in domains && h == name + "." + d.domain
  }

  method SlugHosts(name: string, slugs: seq<string>, base: string, shape: Shape) returns (hosts: seq<string>)
    ensures NoDuplicates(hosts) && (|slugs| > 0 ==> |hosts| > 0)
    ensures forall h :: h in hosts <==> IsSlugHost(h, name, slugs, base, shape)
  {
    hosts := [];
    for i := 0 to |slugs|
      invariant NoDuplicates(hosts) && (i > 0 ==> |hosts| > 0)
      invariant forall h :: h in hosts <==> IsSlugHost(h, name, slugs[..i], base, shape)
    {
      assert slugs[..i + 1] == slugs[..i] + [slugs[i]];
      hosts := AddHost(hosts, Hostname(name, slugs[i], base, shape));
      assert Hostname(name, slugs[i], base, shape) in hosts;
    }
    assert slugs[..|slugs|] == slugs;
  }

  method DomainHosts(start: seq<string>, name: string, domains: seq<Domain>) returns (hosts: seq<string>, primaryDomain: string)
    requires NoDuplicates(start)
    ensures NoDuplicates(hosts) && start <= hosts && primaryDomain == PrimaryDomain(domains)
    ensures forall h :: h in hosts <==> h in start || IsDomainHost(h, name, domains)
  {
    hosts, primaryDomain := start, "";
    for i := 0 to |domains|
      invariant NoDuplicates(hosts) && start <= hosts && primaryDomain == PrimaryDomain(domains[..i])
      invariant forall h :: h in hosts <==> h in start || IsDomainHost(h, name, domains[..i])
    {
      assert domains[..i + 1] == domains[..i] + [domains[i]];
      assert domains[..i + 1][..i] == domains[..i];
      hosts := AddHost(hosts, name + "." + domains[i].domain);
      if domains[i].primary { primaryDomain := domains[i].domain; }
    }
    assert domains[..|domains|] == domains;
  }

  lemma {:induction false} PrimaryDomainIsListed(domains: seq<Domain>)
    requires PrimaryDomain(domains) != ""
    ensures exists d :: d in domains && d.domain == PrimaryDomain(domains)
  {
    if domains[|domains| - 1].primary {
      assert domains[|domains| - 1] in domains;
    } else {
      PrimaryDomainIsListed(domains[..|domains| - 1]);
    }
  }

  /** The slug whose default-shape host is shown when no domain is primary. */
  function ShownSlug(scope: Scope, slug: string): string {
    if scope.primarySlug == "" then slug else scope.primarySlug
  }

  /** `h` is among the hosts of the bound slugs and the domains. */
  ghost predicate Listed(h: string, name: string, slug: string, base: string, shape: Shape, scope: Scope) {
    IsSlugHost(h, name, BoundSlugs(scope, slug), base, shape) || IsDomainHost(h, name, scope.domains)
  }

  /** Every host a tunnel answers on, and the one shown to the user. The list is never empty and never repeats a
      host. The shown host is one the tunnel answers on exactly when a domain is primary or the shown slug's
      host is listed; when that is, the lemma after this says in terms of the scope. */
  method HostsForTunnel(name: string, slug: string, base: string, shape: Shape, scope: Option<Scope>)
    returns (hosts: seq<string>, primary: string)
    ensures |hosts| > 0 && NoDuplicates(hosts)
    ensures scope.None? ==> hosts == [Hostname(name, slug, base, shape)] && primary == hosts[0]
    ensures scope.Some? ==> forall h :: h in hosts <==> Listed(h, name, slug, base, shape, scope.value)
    ensures scope.Some? && PrimaryDomain(scope.value.domains) != "" ==> primary == name + "." + PrimaryDomain(scope.value.domains)
    ensures scope.Some? && PrimaryDomain(scope.value.domains) == "" ==>
              primary == Hostname(name, ShownSlug(scope.value, slug), base, shape)
    ensures primary in hosts <==>
              || scope.None? || PrimaryDomain(scope.value.domains) != ""
              || Listed(Hostname(name, ShownSlug(scope.value, slug), base, shape), name, slug, base, shape, scope.value)
  {
    var defaultHost := Hostname(name, slug, base, shape);
    if scope.None? { return [defaultHost], defaultHost; }
    var sh := scope.value;
    hosts := SlugHosts(name, sh.slugs, base, shape);
    if |hosts| == 0 {
      hosts := AddHost(hosts, defaultHost);
      assert defaultHost in hosts;
    } else {
      assert hosts[0] in hosts;
    }
    var bound := BoundSlugs(sh, slug);
    assert forall h :: h in hosts <==> IsSlugHost(h, name, bound, base, shape);
    var primaryDomain;
    hosts, primaryDomain := DomainHosts(hosts, name, sh.domains);
    if primaryDomain != "" {
      PrimaryDomainIsListed(sh.domains);
      primary := name + "." + primaryDomain;
    } else {
      primary := Hostname(name, ShownSlug(sh, slug), base, shape);
    }
    // no rendered host is empty, so the last fallback to the default host never applies
    assert primary != "";
  }

  /** With hyphen-free slugs: the shown slug's host is listed exactly when the slug is bound, or the shape hides the
      slug, or a custom domain happens to be the slug's own subdomain of the base or, for a hidden slug, the
      base itself. */
  lemma ShownHostIsListed(name: string, slug: string, base: string, shape: Shape, scope: Scope)
    requires ValidLabel(name) && ValidSlug(ShownSlug(scope, slug)) && forall s :: s in BoundSlugs(scope, slug) ==> ValidSlug(s)
    ensures var shown := ShownSlug(scope, slug);
            Listed(Hostname(name, shown, base, shape), name, slug, base, shape, scope) <==>
              || shape == Flat
              || shown in BoundSlugs(scope, slug)
              || (shape == Subdomain && exists d :: d in scope.domains && d.domain == shown + "." + base)
  {
    var shown, bound := ShownSlug(scope, slug), BoundSlugs(scope, slug);
    var h := Hostname(name, shown, base, shape);
    assert bound[0] in bound;
    if shape == Flat {
      assert h == Hostname(name, bound[0], base, shape);
    } else {
      forall s | s in bound && h == Hostname(name, s, base, shape) ensures s == shown {
        HostnameInjective(name, shown, name, s, base, shape);
      }
      forall d | d in scope.domains ensures h == name + "." + d.domain <==> shape == Subdomain && d.domain == shown + "." + base {
        DomainIsHost(name, shown, base, shape, d.domain);
      }
    }
  }

  /** When a custom domain renders the same host as a slug. */
  lemma DomainIsHost(name: string, slug: string, base: string, shape: Shape, domain: string)
    requires slug != "" && shape != Flat
    ensures Hostname(name, slug, base, shape) == name + "." + domain <==> shape == Subdomain && domain == slug + "." + base
  {
    var h := Hostname(name, slug, base, shape);
    assert (name + "." + domain)[|name|] == '.';
    assert (name + "." + domain)[|name| + 1..] == domain;
    if shape == Hyphen {
      assert h == name + ("-" + slug + "." + base);
      assert h[|name|] == '-';
    } else {
      assert h == name + "." + (slug + "." + base);
      assert h[|name| + 1..] == slug + "." + base;
    }
  }

  /** A scope whose shown host is not one the tunnel answers on: the primary slug is not among the bound ones. */
  lemma ShownHostNotListed(name: string, slug: string, bound: string, primary: string, base: string, shape: Shape)
    requires ValidLabel(name) && ValidSlug(bound) && ValidSlug(primary) && primary != bound && shape != Flat
    ensures var scope := Scope([bound], primary, []);
            PrimaryDomain(scope.domains) == "" && !Listed(Hostname(name, ShownSlug(scope, slug), base, shape), name, slug, base, shape, scope)
  {
    ShownHostIsListed(name, slug, base, shape, Scope([bound], primary, []));
  }
}
