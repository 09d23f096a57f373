/** Public hostnames: how a tunnel's label and its scope's slug become a host, how a host is read back, and which
    certificate names cover it. */
module Naming {
  import opened Options

  predicate AlNum(c: char) {
    'a' <= c <= 'z' || '0' <= c <= '9'
  }

  predicate LabelChar(c: char) {
    AlNum(c) || c == '-'
  }

  predicate ValidLabel(s: string) {
    1 <= |s| <= 63 && AlNum(s[0]) && AlNum(s[|s| - 1]) && forall i :: 0 <= i < |s| ==> LabelChar(s[i])
  }

  /** A slug has no hyphen: the last hyphen of `<label>-<slug>` is then the boundary. */
  predicate ValidSlug(s: string) {
    1 <= |s| <= 63 && forall i :: 0 <= i < |s| ==> AlNum(s[i])
  }

  datatype Shape = Hyphen | Subdomain | Flat

  function Hostname(name: string, slug: string, base: string, shape: Shape): string {
    if slug == "" then name + "." + base
    else match shape
      case Flat => name + "." + base
      case Hyphen => name + "-" + slug + "." + base
      case Subdomain => name + "." + slug + "." + base
  }

  // String primitives.

  function First(s: string, c: char): (i: nat)
    ensures i <= |s| && (forall j :: 0 <= j < i ==> s[j] != c) && (i < |s| ==> s[i] == c)
  {
    if |s| == 0 || s[0] == c then 0 else 1 + First(s[1..], c)
  }

  /** One past the last `c`, or 0. */
  function AfterLast(s: string, c: char): (i: nat)
    ensures i <= |s| && (forall j :: i <= j < |s| ==> s[j] != c) && (i > 0 ==> s[i - 1] == c)
  {
    if |s| == 0 then 0 else if s[|s| - 1] == c then |s| else AfterLast(s[..|s| - 1], c)
  }

  predicate EndsWith(s: string, suffix: string) {
    |suffix| <= |s| && s[|s| - |suffix|..] == suffix
  }

  /** The parts between separators, in order. */
  function Split(s: string, c: char): (parts: seq<string>)
    ensures |parts| >= 1
    decreases |s|
  {
    var i := First(s, c);
    if i == |s| then [s] else [s[..i]] + Split(s[i + 1..], c)
  }

  function Mapped(s: string, f: char -> char): string {
    seq(|s|, i requires 0 <= i < |s| => f(s[i]))
  }

  function StripPort(h: string): string {
    h[..First(h, ':')]
  }

  function TrimDot(h: string): string {
    if |h| > 0 && h[|h| - 1] == '.' then h[..|h| - 1] else h
  }

  /** The slug in the part of a host before the base. */
  function SlugFromFront(front: string, shape: Shape): string {
    if front == "" then ""
    else match shape
      case Flat => ""
      case Subdomain =>
        var parts := Split(front, '.');
        if |parts| >= 2 then parts[|parts| - 1] else ""
      case Hyphen =>
        var i := AfterLast(front, '-');
        if 1 < i < |front| then front[i..] else ""
  }

  /** What of a host comes before the base, once it is lower-cased and rid of its port and trailing dot. */
  function FrontOfHost(host: string, base: string, lower: char -> char): Option<string> {
    var h := TrimDot(StripPort(Mapped(host, lower)));
    var suffix := "." + base;
    if EndsWith(h, suffix) then Some(h[..|h| - |suffix|]) else None
  }

  function SlugFromHost(host: string, base: string, shape: Shape, lower: char -> char): string {
    var front := FrontOfHost(host, base, lower);
    if front.Some? then SlugFromFront(front.value, shape) else ""
  }

  /** A base domain as configured: lower-case, no port, no trailing dot. */
  ghost predicate PlainBase(base: string, lower: char -> char) {
    && |base| > 0 && base[|base| - 1] != '.'
    && forall i :: 0 <= i < |base| ==> base[i] != ':' && lower(base[i]) == base[i]
  }

  /** Lower-casing leaves lower-case letters, digits, hyphens and dots alone. */
  ghost predicate Lowers(lower: char -> char) {
    forall c :: LabelChar(c) || c == '.' ==> lower(c) == c
  }

  // Reading a host back.

  /** A host written in plain characters passes the clean-up unchanged. */
  lemma CleanUpKeeps(front: string, base: string, lower: char -> char)
    requires Lowers(lower) && PlainBase(base, lower)
    requires forall i :: 0 <= i < |front| ==> LabelChar(front[i]) || front[i] == '.'
    ensures TrimDot(StripPort(Mapped(front + "." + base, lower))) == front + "." + base
    ensures EndsWith(front + "." + base, "." + base)
    ensures (front + "." + base)[..|front + "." + base| - |"." + base|] == front
  {
    var h := front + "." + base;
    assert h == front + ("." + base);
    forall i | 0 <= i < |h| ensures lower(h[i]) == h[i] && h[i] != ':' {
      if i > |front| { assert h[i] == base[i - |front| - 1]; }
    }
    assert Mapped(h, lower) == h;
    assert First(h, ':') == |h|;
    assert h[..|h|] == h;
    assert h[|h| - 1] == base[|base| - 1];
  }

  lemma SplitTwo(a: string, b: string)
    requires forall i :: 0 <= i < |a| ==> a[i] != '.'
    requires forall i :: 0 <= i < |b| ==> b[i] != '.'
    ensures Split(a + "." + b, '.') == [a, b]
  {
    var s := a + "." + b;
    assert s[|a|] == '.';
    forall i | 0 <= i < |a| ensures s[i] != '.' { assert s[i] == a[i]; }
    assert First(s, '.') == |a|;
    assert s[..|a|] == a && s[|a| + 1..] == b;
    SplitOne(b);
  }

  lemma SplitOne(a: string)
    requires forall i :: 0 <= i < |a| ==> a[i] != '.'
    ensures Split(a, '.') == [a]
  {
    assert First(a, '.') == |a|;
  }

  lemma AfterLastIs(s: string, c: char, k: nat)
    requires k < |s| && s[k] == c && forall i :: k < i < |s| ==> s[i] != c
    ensures AfterLast(s, c) == k + 1
  {
  }

  lemma IndexAfter(a: string, b: string, i: nat)
    requires |a| <= i < |a| + |b|
    ensures (a + b)[i] == b[i - |a|]
  {
  }

  lemma LastHyphen(name: string, slug: string)
    requires ValidSlug(slug)
    ensures AfterLast(name + "-" + slug, '-') == |name| + 1
    ensures (name + "-" + slug)[|name| + 1..] == slug
  {
    var s := name + "-" + slug;
    forall i | |name| < i < |s| ensures s[i] != '-' { IndexAfter(name + "-", slug, i); }
    AfterLastIs(s, '-', |name|);
  }

  /** A host as its front and its base. */
  function Front(name: string, slug: string, shape: Shape): string {
    match shape
    case Flat => name
    case Hyphen => name + "-" + slug
    case Subdomain => name + "." + slug
  }

  lemma FrontOf(name: string, slug: string, base: string, shape: Shape)
    requires slug != ""
    ensures Hostname(name, slug, base, shape) == Front(name, slug, shape) + "." + base
  {
  }

  lemma FrontChars(name: string, slug: string, shape: Shape)
    requires ValidLabel(name) && ValidSlug(slug)
    ensures forall i :: 0 <= i < |Front(name, slug, shape)| ==>
              LabelChar(Front(name, slug, shape)[i]) || Front(name, slug, shape)[i] == '.'
  {
  }

  lemma FrontRoundTrip(name: string, slug: string, shape: Shape)
    requires ValidLabel(name) && ValidSlug(slug)
    ensures SlugFromFront(Front(name, slug, shape), shape) == if shape == Flat then "" else slug
  {
    match shape
    case Flat =>
    case Hyphen => LastHyphen(name, slug);
    case Subdomain => SplitTwo(name, slug);
  }

  /** The front is read back from a host written in plain characters. */
  lemma FrontReadBack(front: string, base: string, lower: char -> char)
    requires Lowers(lower) && PlainBase(base, lower)
    requires forall i :: 0 <= i < |front| ==> LabelChar(front[i]) || front[i] == '.'
    ensures FrontOfHost(front + "." + base, base, lower) == Some(front)
  {
    CleanUpKeeps(front, base, lower);
  }

  /** The slug is read back from every host rendered with it. */
  lemma SlugRoundTrip(name: string, slug: string, base: string, shape: Shape, lower: char -> char)
    requires ValidLabel(name) && ValidSlug(slug) && PlainBase(base, lower) && Lowers(lower)
    ensures SlugFromHost(Hostname(name, slug, base, shape), base, shape, lower) == if shape == Flat then "" else slug
  {
    var front := Front(name, slug, shape);
    FrontOf(name, slug, base, shape);
    FrontChars(name, slug, shape);
    FrontReadBack(front, base, lower);
    FrontRoundTrip(name, slug, shape);
  }

  lemma FrontStarts(name: string, slug: string, shape: Shape)
    requires shape != Flat
    ensures |Front(name, slug, shape)| == |name| + 1 + |slug| && Front(name, slug, shape)[..|name|] == name
  {
  }

  lemma SameFront(front: string, front': string, base: string)
    requires front + "." + base == front' + "." + base
    ensures front == front'
  {
    var h := front + "." + base;
    assert |front| == |front'|;
    assert h[..|front|] == front && h[..|front'|] == front';
  }

  /** No two tunnels share a host: the rendering is injective, in both shapes that carry the slug. */
  lemma HostnameInjective(name: string, slug: string, name': string, slug': string, base: string, shape: Shape)
    requires ValidLabel(name) && ValidSlug(slug) && ValidLabel(name') && ValidSlug(slug') && shape != Flat
    ensures Hostname(name, slug, base, shape) == Hostname(name', slug', base, shape) ==> name == name' && slug == slug'
  {
    FrontOf(name, slug, base, shape);
    FrontOf(name', slug', base, shape);
    FrontRoundTrip(name, slug, shape);
    FrontRoundTrip(name', slug', shape);
    if Hostname(name, slug, base, shape) == Hostname(name', slug', base, shape) {
      var f, f' := Front(name, slug, shape), Front(name', slug', shape);
      SameFront(f, f', base);
      FrontStarts(name, slug, shape);
      FrontStarts(name', slug', shape);
    }
  }

  /** In the flat shape the slug does not show: two tunnels share a host exactly when they share a label. */
  lemma FlatSharesByLabel(name: string, slug: string, name': string, slug': string, base: string)
    ensures Hostname(name, slug, base, Flat) == Hostname(name', slug', base, Flat) <==> name == name'
  {
    if Hostname(name, slug, base, Flat) == Hostname(name', slug', base, Flat) { SameFront(name, name', base); }
  }

  // Certificates.

  datatype Namespace = NoTunnel | Slug(slug: string)

  function ExtractSlug(sni: string, base: string): Namespace {
    var suffix := "." + base;
    if sni == "" || !EndsWith(sni, suffix) then NoTunnel
    else
      var parts := Split(sni[..|sni| - |suffix|], '.');
      if |parts| == 1 then if parts[0] == "" then NoTunnel else Slug("")
      else if |parts| == 2 then Slug(parts[1])
      else NoTunnel
  }

  function CertNames(slug: string, base: string): seq<string> {
    if slug == "" then ["*." + base] else ["*." + slug + "." + base, slug + "." + base]
  }

  /** A name without a wildcard covers itself; a leftmost `*` stands for exactly one non-empty label (section
      6.4.3 of RFC 6125). */
  ghost predicate Covers(pattern: string, host: string) {
    || pattern == host
    || (|pattern| >= 2 && pattern[..2] == "*." && |host| >= |pattern| && host[|host| - |pattern| + 1..] == pattern[1..]
        && forall i :: 0 <= i < |host| - |pattern| + 1 ==> host[i] != '.')
  }

  /** Some of the names a certificate is issued for covers the host. */
  ghost predicate Covered(names: seq<string>, host: string) {
    exists n :: n in names && Covers(n, host)
  }

  /** `host` is one non-empty dot-free label in front of `tail`. */
  lemma WildcardCovers(name: string, tail: string)
    requires |name| > 0 && forall i :: 0 <= i < |name| ==> name[i] != '.'
    ensures Covers("*." + tail, name + "." + tail)
  {
    var pattern, host := "*." + tail, name + "." + tail;
    assert pattern[1..] == "." + tail;
    assert host == name + ("." + tail);
    assert forall i :: 0 <= i < |name| ==> host[i] == name[i];
  }

  /** Every rendered host, in every shape, is covered by the wildcard issued for its namespace. */
  lemma RenderedHostsAreCovered(name: string, slug: string, base: string, shape: Shape)
    requires ValidLabel(name) && (slug == "" || ValidSlug(slug))
    ensures var host := Hostname(name, slug, base, shape);
            && ExtractSlug(host, base) == Slug(if shape == Subdomain then slug else "")
            && Covered(CertNames(ExtractSlug(host, base).slug, base), host)
  {
    if slug == "" || shape == Flat {
      OneLabelNamespace(name, base);
    } else if shape == Hyphen {
      OneLabelNamespace(name + "-" + slug, base);
    } else {
      TwoLabelNamespace(name, slug, base);
    }
  }

  lemma TwoLabelNamespace(name: string, slug: string, base: string)
    requires |name| > 0 && forall i :: 0 <= i < |name| ==> name[i] != '.'
    requires |slug| > 0 && forall i :: 0 <= i < |slug| ==> slug[i] != '.'
    ensures var host := name + "." + slug + "." + base;
            ExtractSlug(host, base) == Slug(slug) && Covered(CertNames(slug, base), host)
  {
    AcceptedTwo(name, slug, base);
    CoveredTwo(name, slug, base);
  }

  lemma SuffixCut(front: string, base: string)
    ensures EndsWith(front + "." + base, "." + base)
    ensures (front + "." + base)[..|front + "." + base| - |"." + base|] == front
  {
    assert front + "." + base == front + ("." + base);
  }

  lemma OneLabelNamespace(name: string, base: string)
    requires |name| > 0 && forall i :: 0 <= i < |name| ==> name[i] != '.'
    ensures ExtractSlug(name + "." + base, base) == Slug("") && Covered(CertNames("", base), name + "." + base)
  {
    SuffixCut(name, base);
    SplitOne(name);
    WildcardCovers(name, base);
  }

  /** A host that is the base with one or two labels in front. */
  function Parts(sni: string, base: string): seq<string>
    requires EndsWith(sni, "." + base)
  {
    Split(sni[..|sni| - |"." + base|], '.')
  }

  lemma JoinOne(s: string)
    requires |Split(s, '.')| == 1
    ensures Split(s, '.')[0] == s && forall i :: 0 <= i < |s| ==> s[i] != '.'
  {
  }

  lemma JoinTwo(s: string)
    requires |Split(s, '.')| == 2
    ensures var p := Split(s, '.');
            && s == p[0] + "." + p[1]
            && (forall i :: 0 <= i < |p[0]| ==> p[0][i] != '.') && (forall i :: 0 <= i < |p[1]| ==> p[1][i] != '.')
  {
    var i := First(s, '.');
    JoinOne(s[i + 1..]);
    assert s == s[..i] + "." + s[i + 1..];
  }

  /** The names issued for an accepted server name cover it exactly when none of its labels is empty: a name such as
      "x..base" or ".slug.base" is accepted and gets a certificate that does not match it. */
  lemma CoveredExactly(sni: string, base: string)
    requires ExtractSlug(sni, base).Slug?
    ensures Covered(CertNames(ExtractSlug(sni, base).slug, base), sni) <==> forall p :: p in Parts(sni, base) ==> p != ""
  {
    var front := sni[..|sni| - |"." + base|];
    assert sni == front + ("." + base);
    assert sni == front + "." + base;
    var parts := Split(front, '.');
    if |parts| == 1 {
      JoinOne(front);
      OneLabelNamespace(front, base);
    } else {
      JoinTwo(front);
      assert parts[0] in parts && parts[1] in parts;
      CoveredTwo(parts[0], parts[1], base);
    }
  }

  /** Two such names, with the empty label in the slug's place and in the tunnel's. */
  lemma EmptyLabelsNotCovered(name: string, slug: string, base: string)
    requires ValidLabel(name) && ValidSlug(slug)
    ensures var sni := name + "." + "" + "." + base;
            ExtractSlug(sni, base) == Slug("") && !Covered(CertNames("", base), sni)
    ensures var sni := "" + "." + slug + "." + base;
            ExtractSlug(sni, base) == Slug(slug) && !Covered(CertNames(slug, base), sni)
  {
    AcceptedTwo(name, "", base);
    CoveredTwo(name, "", base);
    AcceptedTwo("", slug, base);
    CoveredTwo("", slug, base);
  }

  lemma AcceptedTwo(a: string, b: string, base: string)
    requires forall i :: 0 <= i < |a| ==> a[i] != '.'
    requires forall i :: 0 <= i < |b| ==> b[i] != '.'
    ensures ExtractSlug(a + "." + b + "." + base, base) == Slug(b)
  {
    SuffixCut(a + "." + b, base);
    SplitTwo(a, b);
  }

  lemma WildcardExactly(a: string, b: string, base: string)
    requires forall i :: 0 <= i < |a| ==> a[i] != '.'
    ensures Covers(CertNames(b, base)[0], a + "." + b + "." + base) <==> a != "" && b != ""
  {
    var host := a + "." + b + "." + base;
    if b == "" {
      var pattern := "*." + base;
      assert host[|a|] == '.';
      assert |host| - |pattern| + 1 == |a| + 1;
    } else {
      var tail := b + "." + base;
      assert host == a + "." + tail;
      assert "*." + b + "." + base == "*." + tail;
      if a != "" { WildcardCovers(a, tail); } else { assert |host| < |"*." + tail|; }
    }
  }

  /** The other name of a namespace, its own host, never covers a tunnel's. */
  lemma ApexNeverCovers(a: string, b: string, base: string)
    ensures !Covers(b + "." + base, a + "." + b + "." + base)
  {
    var host, apex := a + "." + b + "." + base, b + "." + base;
    assert |host| == |a| + 1 + |apex|;
    assert host[|a|] == '.';
  }

  lemma CoveredTwo(a: string, b: string, base: string)
    requires forall i :: 0 <= i < |a| ==> a[i] != '.'
    ensures Covered(CertNames(b, base), a + "." + b + "." + base) <==> a != "" && b != ""
  {
    WildcardExactly(a, b, base);
    if b != "" { ApexNeverCovers(a, b, base); }
    assert CertNames(b, base)[0] in CertNames(b, base);
  }
}
