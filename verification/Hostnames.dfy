/** The embedded seed table's one-pass host checker, and the parser of configured seeds. */
module Hostnames {
  import opened Wrappers
  import opened Text

  // ----- the grammar -----

  predicate LowerAlpha(c: char) { 'a' <= c <= 'z' }

  predicate HostChar(c: char) { LowerAlpha(c) || IsDigit(c) || c == '-' }

  /** A label as section 2.1 of RFC 1123 has it, lower-case only. */
  predicate LabelOk(l: string) {
    && 1 <= |l| <= 63 && l[0] != '-' && l[|l| - 1] != '-'
    && (forall i :: 0 <= i < |l| ==> HostChar(l[i]))
  }

  predicate HasAlpha(l: string) { exists i :: 0 <= i < |l| && LowerAlpha(l[i]) }

  /** Two labels or more, the last with a letter in it. */
  predicate DomainName(h: string) {
    var ls := Split(h, '.');
    && |ls| >= 2 && HasAlpha(ls[|ls| - 1])
    && (forall k :: 0 <= k < |ls| ==> LabelOk(ls[k]))
  }

  predicate Octet(l: string) { 1 <= |l| <= 3 && AllDigits(l) && DigitsVal(l) <= 255 }

  /** Four decimal groups of one to three digits, leading zeros allowed. */
  predicate Ipv4Shape(h: string) {
    var ls := Split(h, '.');
    |ls| == 4 && forall k :: 0 <= k < |ls| ==> Octet(ls[k])
  }

  predicate ValidHost(h: string) { 1 <= |h| <= 253 && (Ipv4Shape(h) || DomainName(h)) }

  // ----- the scanners -----

  /** The split of the text, given the labels already passed and where the current one starts. */
  ghost predicate Passed(h: string, done: seq<string>, start: nat)
    requires start <= |h|
  {
    Split(h, '.') == done + Split(h[start..], '.')
  }

  lemma PassDot(h: string, done: seq<string>, start: nat, i: nat)
    requires start <= i < |h| && Passed(h, done, start) && h[i] == '.' && '.' !in h[start..i]
    ensures Passed(h, done + [h[start..i]], i + 1)
    ensures |Split(h, '.')| > |done| && Split(h, '.')[|done|] == h[start..i]
  {
    hide Split;
    assert h[start..] == h[start..i] + ['.'] + h[i + 1..];
    SplitAt(h[start..i], '.', h[i + 1..]);
  }

  /** Whatever follows, the label in progress begins with what has been read of it. */
  lemma LabelBegins(h: string, done: seq<string>, start: nat, i: nat)
    requires start <= i <= |h| && Passed(h, done, start) && '.' !in h[start..i]
    ensures |Split(h, '.')| > |done| && h[start..i] <= Split(h, '.')[|done|]
  {
    var u := h[start..];
    assert u[..i - start] == h[start..i];
    forall k | 0 <= k < i - start ensures u[k] != '.' {
      assert u[k] == h[start..i][k];
    }
    assert Split(u, '.')[0] == u[..IndexOf(u, '.')];
  }

  lemma PassEnd(h: string, done: seq<string>, start: nat)
    requires start <= |h| && Passed(h, done, start) && '.' !in h[start..]
    ensures Split(h, '.') == done + [h[start..]]
  {
    SplitWhole(h[start..], '.');
  }

  /** What has been read of a group of digits. */
  predicate Group(l: string, cur: nat) { |l| <= 3 && AllDigits(l) && cur == DigitsVal(l) }

  lemma GroupStep(l: string, cur: nat, c: char)
    requires Group(l, cur) && IsDigit(c) && |l| < 3
    ensures Group(l + [c], cur * 10 + (c as int - '0' as int))
  {
    assert (l + [c])[..|l|] == l;
  }

  lemma GroupClean(l: string, cur: nat)
    requires Group(l, cur)
    ensures '.' !in l && (Octet(l) <==> l != "" && cur <= 255)
  {
  }

  lemma NotOctet(l: string, c: char, whole: string)
    requires l + [c] <= whole && (!IsDigit(c) || |l| >= 3)
    ensures !Octet(whole)
  {
    assert whole[|l|] == (l + [c])[|l|];
  }

  method IsValidIpv4Literal(h: string) returns (ok: bool)
    ensures ok <==> Ipv4Shape(h)
  {
    hide Split, Group, Octet, AllDigits, DigitsVal;
    var octets, cur, digits := 0, 0, 0;
    ghost var done: seq<string> := [];
    assert h[0..] == h;
    assert Group("", 0) by { GroupEmpty(); }
    for i := 0 to |h|
      invariant 0 <= digits <= 3 && digits <= i && cur >= 0 && Passed(h, done, i - digits) && |done| == octets
      invariant forall k :: 0 <= k < |done| ==> Octet(done[k])
      invariant Group(h[i - digits..i], cur)
    {
      ghost var start, l := i - digits, h[i - digits..i];
      GroupClean(l, cur);
      var c := h[i];
      if c == '.' {
        PassDot(h, done, start, i);
        if digits == 0 || digits > 3 || cur > 255 {
          return false;
        }
        done := done + [l];
        octets, cur, digits := octets + 1, 0, 0;
        GroupEmpty();
        assert h[i + 1..i + 1] == "";
      } else {
        assert h[start..i + 1] == l + [c];
        LabelBegins(h, done, start, i + 1);
        ghost var whole := Split(h, '.')[|done|];
        if '0' <= c <= '9' {
          if digits >= 3 {
            NotOctet(l, c, whole);
          } else {
            GroupStep(l, cur, c);
          }
          cur, digits := cur * 10 + (c as int - '0' as int), digits + 1;
          if digits > 3 {
            return false;
          }
        } else {
          NotOctet(l, c, whole);
          return false;
        }
      }
    }
    ghost var last := h[|h| - digits..];
    assert last == h[|h| - digits..|h|];
    GroupClean(last, cur);
    PassEnd(h, done, |h| - digits);
    assert (done + [last])[|done|] == last;
    if digits == 0 || digits > 3 || cur > 255 {
      return false;
    }
    octets := octets + 1;
    ok := octets == 4;
  }

  lemma GroupEmpty()
    ensures Group("", 0)
  {
  }

  /** What has been read of a label is the start of a good one. */
  predicate Begun(l: string) {
    |l| <= 63 && (l != "" ==> l[0] != '-') && forall i :: 0 <= i < |l| ==> HostChar(l[i])
  }

  lemma BegunPrefix(l: string, whole: string)
    requires l <= whole && LabelOk(whole)
    ensures Begun(l)
  {
  }

  method IsDomainName(h: string) returns (ok: bool)
    requires h != ""
    ensures ok <==> DomainName(h)
  {
    hide Split, LabelOk, Begun;
    var labelLen, labels, alpha := 0, 0, false;
    ghost var done: seq<string> := [];
    assert h[0..] == h;
    BegunEmpty();
    for i := 0 to |h|
      invariant 0 <= labelLen <= i && labelLen <= 63 && Passed(h, done, i - labelLen) && |done| == labels
      invariant forall k :: 0 <= k < |done| ==> LabelOk(done[k])
      invariant Begun(h[i - labelLen..i]) && '.' !in h[i - labelLen..i]
      invariant alpha == HasAlpha(h[i - labelLen..i])
    {
      ghost var start := i - labelLen;
      var c := h[i];
      if c == '.' {
        PassDot(h, done, start, i);
        EndsOk(h[start..i]);
        if labelLen == 0 || h[i - 1] == '-' {
          return false;
        }
        done := done + [h[start..i]];
        labelLen, labels, alpha := 0, labels + 1, false;
        assert h[i + 1..i + 1] == "";
        continue;
      }
      ghost var l := h[start..i];
      assert h[start..i + 1] == l + [c];
      LabelBegins(h, done, start, i + 1);
      Grows(l, c);
      if LabelOk(Split(h, '.')[|done|]) {
        BegunPrefix(l + [c], Split(h, '.')[|done|]);
      }
      if !(('a' <= c <= 'z') || IsDigit(c) || c == '-') {
        return false;
      }
      if labelLen == 0 && c == '-' {
        return false;
      }
      if 'a' <= c <= 'z' {
        alpha := true;
      }
      labelLen := labelLen + 1;
      if labelLen > 63 {
        return false;
      }
    }
    ghost var last := h[|h| - labelLen..];
    assert last == h[|h| - labelLen..|h|];
    PassEnd(h, done, |h| - labelLen);
    EndsOk(last);
    assert (done + [last])[|done|] == last;
    if labelLen == 0 || h[|h| - 1] == '-' {
      return false;
    }
    if !alpha {
      return false;
    }
    labels := labels + 1;
    ok := labels >= 2;
  }

  lemma BegunEmpty()
    ensures Begun("") && !HasAlpha("")
  {
  }

  lemma EndsOk(l: string)
    requires Begun(l)
    ensures LabelOk(l) <==> l != "" && l[|l| - 1] != '-'
  {
  }

  lemma Grows(l: string, c: char)
    requires Begun(l)
    ensures Begun(l + [c]) <==> HostChar(c) && |l| < 63 && (l == "" ==> c != '-')
    ensures HasAlpha(l + [c]) <==> HasAlpha(l) || LowerAlpha(c)
    ensures '.' !in l && c != '.' ==> '.' !in l + [c]
  {
    var m := l + [c];
    assert m[|l|] == c && forall i :: 0 <= i < |l| ==> m[i] == l[i];
  }

  /** The one-pass checker accepts exactly the grammar or the address shape. */
  method IsValidSeedHost(h: string) returns (ok: bool)
    ensures ok <==> ValidHost(h)
  {
    if h == "" || |h| > 253 {
      return false;
    }
    var v4 := IsValidIpv4Literal(h);
    if v4 {
      return true;
    }
    ok := IsDomainName(h);
  }

  // ----- the seed parser -----

  datatype Why = EmptyEntry | PortZero | Url | UserAt | NotAPort | EmptyName | TooLong | EmptyLabel | LongLabel
    | Hyphen | BadChar

  datatype Seed<A> = Literal(ip: A, port: nat) | Host(name: string, port: nat) | Placeholder(name: string)
    | Malformed(why: Why)

  /** The library's address parsers. */
  datatype Parsers<!A> = Parsers(sock: string -> Option<(A, nat)>, ip: string -> Option<A>) {
    /** A socket address is written with a colon. */
    ghost predicate Lawful() { forall t :: sock(t).Some? ==> ':' in t }
  }

  const TLD := ".invalid"

  predicate EndsWith(s: string, t: string) { |s| >= |t| && s[|s| - |t|..] == t }

  function WithoutDots(s: string): string { if s != "" && s[|s| - 1] == '.' then WithoutDots(s[..|s| - 1]) else s }

  predicate IsPlaceholderHost(host: string) {
    var h := WithoutDots(host);
    |h| > |TLD| && EndsWith(Lower(h), TLD)
  }

  predicate ConstIsPlaceholder(h: string) { |h| > |TLD| && EndsWith(h, TLD) }

  predicate AlphaNum(c: char) { LowerAlpha(c) || 'A' <= c <= 'Z' || IsDigit(c) }

  function LabelFault(l: string): Option<Why> {
    if l == "" then Some(EmptyLabel)
    else if |l| > 63 then Some(LongLabel)
    else if l[0] == '-' || l[|l| - 1] == '-' then Some(Hyphen)
    else if exists i :: 0 <= i < |l| && !(AlphaNum(l[i]) || l[i] == '-') then Some(BadChar)
    else None
  }

  /** The first label's fault that has one. */
  function LabelsFault(ls: seq<string>): Option<Why> {
    if ls == [] then None else if LabelFault(ls[0]).Some? then LabelFault(ls[0]) else LabelsFault(ls[1..])
  }

  function NameFault(name: string): Option<Why> {
    if name == "" then Some(EmptyName)
    else if |name| > 253 then Some(TooLong)
    else if '/' in name then Some(Url)
    else if '@' in name then Some(UserAt)
    else
      var n := if name[|name| - 1] == '.' then name[..|name| - 1] else name;
      if n == "" then Some(EmptyName) else LabelsFault(Split(n, '.'))
  }

  /** Where the last colon stands, or the length. */
  function LastColon(t: string): (k: nat)
    ensures k <= |t| && (k == |t| <==> ':' !in t) && (k < |t| ==> t[k] == ':' && ':' !in t[k + 1..])
  {
    if t == "" then 0
    else if t[|t| - 1] == ':' then |t| - 1
    else
      var k := LastColon(t[..|t| - 1]);
      if k == |t| - 1 then |t| else k
  }

  function ParseName<A>(name: string, port: nat): Seed<A> {
    if NameFault(name).Some? then Malformed(NameFault(name).value)
    else if IsPlaceholderHost(name) then Placeholder(Lower(name))
    else Host(Lower(name), port)
  }

  function Unbracketed(t: string): string {
    if |t| >= 2 && t[0] == '[' && t[|t| - 1] == ']' then t[1..|t| - 1] else t
  }

  function ParseSeed<A>(p: Parsers<A>, text: string, defaultPort: nat): Seed<A> {
    var t := Trim(text);
    if t == "" then Malformed(EmptyEntry)
    else if p.sock(t).Some? then
      if p.sock(t).value.1 == 0 then Malformed(PortZero) else Literal(p.sock(t).value.0, p.sock(t).value.1)
    else if p.ip(Unbracketed(t)).Some? then Literal(p.ip(Unbracketed(t)).value, defaultPort)
    else if '/' in t then Malformed(Url)
    else if '@' in t then Malformed(UserAt)
    else if ':' in t then
      var k := LastColon(t);
      match ParseNat(t[k + 1..], 65535)
      case None => Malformed(NotAPort)
      case Some(port) => if port == 0 then Malformed(PortZero) else ParseName(t[..k], port)
    else ParseName(t, defaultPort)
  }

  lemma {:induction false} NoLabelFault(ls: seq<string>)
    ensures LabelsFault(ls).None? <==> forall k :: 0 <= k < |ls| ==> LabelFault(ls[k]).None?
  {
    if ls != [] {
      NoLabelFault(ls[1..]);
      if LabelsFault(ls).None? {
        forall k | 0 <= k < |ls| ensures LabelFault(ls[k]).None? {
          if k > 0 {
            assert ls[k] == ls[1..][k - 1];
          }
        }
      }
    }
  }

  /** Characters of a text are the separators and those of its pieces. */
  lemma {:induction false} SplitChars(h: string, k: nat)
    requires k < |h| && h[k] != '.'
    ensures exists j :: 0 <= j < |Split(h, '.')| && h[k] in Split(h, '.')[j]
    decreases |h|
  {
    var i := IndexOf(h, '.');
    var ls := Split(h, '.');
    if k < i {
      assert ls[0] == h[..i] && h[k] == h[..i][k];
      assert h[k] in ls[0];
    } else {
      var rest := h[i + 1..];
      SplitChars(rest, k - i - 1);
      var j :| 0 <= j < |Split(rest, '.')| && h[k] in Split(rest, '.')[j];
      assert ls[j + 1] == Split(rest, '.')[j];
    }
  }

  lemma {:induction false} LastLabel(h: string)
    requires h != "" && h[|h| - 1] == '.'
    ensures var ls := Split(h, '.'); ls[|ls| - 1] == ""
    decreases |h|
  {
    var i := IndexOf(h, '.');
    var rest := h[i + 1..];
    if rest == "" {
      SplitWhole("", '.');
    } else {
      LastLabel(rest);
    }
  }

  predicate HostText(h: string) {
    h != "" && h[|h| - 1] != '.' && forall k :: 0 <= k < |h| ==> HostChar(h[k]) || h[k] == '.'
  }

  lemma PiecesText(h: string)
    requires 1 <= |h|
    requires forall k :: 0 <= k < |Split(h, '.')| ==>
               Split(h, '.')[k] != "" && forall i :: 0 <= i < |Split(h, '.')[k]| ==> HostChar(Split(h, '.')[k][i])
    ensures HostText(h)
  {
    hide Split;
    if h[|h| - 1] == '.' {
      LastLabel(h);
      assert false;
    }
    forall k | 0 <= k < |h| ensures HostChar(h[k]) || h[k] == '.' {
      if h[k] != '.' {
        SplitChars(h, k);
        var j :| 0 <= j < |Split(h, '.')| && h[k] in Split(h, '.')[j];
        var i :| 0 <= i < |Split(h, '.')[j]| && Split(h, '.')[j][i] == h[k];
      }
    }
  }

  /** Lower-case letters, digits, hyphens and inner dots; no label the parser faults. */
  lemma ValidText(h: string)
    requires ValidHost(h)
    ensures HostText(h) && LabelsFault(Split(h, '.')).None?
  {
    hide Split, LabelsFault;
    var ls := Split(h, '.');
    forall k | 0 <= k < |ls|
      ensures ls[k] != "" && (forall i :: 0 <= i < |ls[k]| ==> HostChar(ls[k][i])) && LabelFault(ls[k]).None? {
      if Ipv4Shape(h) {
        assert Octet(ls[k]);
        assert IsDigit(ls[k][0]) && IsDigit(ls[k][|ls[k]| - 1]);
      } else {
        assert LabelOk(ls[k]);
      }
    }
    PiecesText(h);
    NoLabelFault(ls);
  }

  lemma PlainText(h: string)
    requires HostText(h)
    ensures Trim(h) == h && Unbracketed(h) == h && Lower(h) == h && WithoutDots(h) == h
    ensures '/' !in h && '@' !in h && ':' !in h
  {
    assert HostChar(h[0]) || h[0] == '.';
    assert HostChar(h[|h| - 1]);
    assert TrimEnd(h) == h;
    forall k | 0 <= k < |h| ensures Lower(h)[k] == h[k] {
      assert HostChar(h[k]) || h[k] == '.';
    }
    assert Lower(h) == h;
  }

  /** Every host the table checker accepts is usable to the seed parser: never malformed, a
      placeholder exactly when the table's own test says so, and otherwise itself. */
  lemma AcceptedIsUsable<A>(p: Parsers<A>, h: string, port: nat)
    requires p.Lawful() && ValidHost(h)
    ensures ParseSeed(p, h, port) ==
            match p.ip(h)
            case Some(a) => Literal(a, port)
            case None => if ConstIsPlaceholder(h) then Placeholder(h) else Host(h, port)
  {
    hide Split, LabelsFault, Trim, Lower, WithoutDots, Unbracketed, HostText, LastColon;
    ValidText(h);
    PlainText(h);
    assert h[|h| - 1] != '.' by { HostTextEnd(h); }
    assert NameFault(h).None?;
  }

  lemma HostTextEnd(h: string)
    requires HostText(h)
    ensures h != "" && h[|h| - 1] != '.'
  {
  }

  // ----- the embedded table -----

  datatype Table = Table(hosts: seq<string>, placeholder: bool)

  predicate WellFormed(t: Table) {
    && t.hosts != [] && (forall i :: 0 <= i < |t.hosts| ==>
                           ValidHost(t.hosts[i]) && ConstIsPlaceholder(t.hosts[i]) == t.placeholder)
    && (forall i, j :: 0 <= i < j < |t.hosts| ==> t.hosts[i] != t.hosts[j])
  }

  method TableIsWellFormed(t: Table) returns (ok: bool)
    ensures ok <==> WellFormed(t)
  {
    hide ValidHost, ConstIsPlaceholder;
    if t.hosts == [] {
      return false;
    }
    for i := 0 to |t.hosts|
      invariant forall k :: 0 <= k < i ==> ValidHost(t.hosts[k]) && ConstIsPlaceholder(t.hosts[k]) == t.placeholder
      invariant forall k, j :: 0 <= k < i && k < j < |t.hosts| ==> t.hosts[k] != t.hosts[j]
    {
      var valid := IsValidSeedHost(t.hosts[i]);
      if !valid {
        return false;
      }
      if ConstIsPlaceholder(t.hosts[i]) != t.placeholder {
        return false;
      }
      for j := i + 1 to |t.hosts|
        invariant forall k :: i < k < j ==> t.hosts[k] != t.hosts[i]
      {
        if t.hosts[i] == t.hosts[j] {
          return false;
        }
      }
    }
    ok := true;
  }

  /** A well-formed table that is not a placeholder gives nothing but addresses and names. */
  lemma TableIsUsable<A>(p: Parsers<A>, t: Table, port: nat, i: nat)
    requires p.Lawful() && WellFormed(t) && i < |t.hosts|
    ensures !ParseSeed(p, t.hosts[i], port).Malformed?
    ensures !t.placeholder ==> !ParseSeed(p, t.hosts[i], port).Placeholder?
  {
    hide ParseSeed, ValidHost, ConstIsPlaceholder;
    AcceptedIsUsable(p, t.hosts[i], port);
  }
}
