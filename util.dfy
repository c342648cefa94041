/**
 * Splitting a reverse-resolved host name into host and domain
 * (src/sensu/snmp/util.py). The reverse lookup itself is an input.
 */
module Util {
  import opened Wrappers

  /** Number of occurrences of `c` in `s`. */
  function Count(s: string, c: char): nat
  {
    if s == [] then 0 else (if s[0] == c then 1 else 0) + Count(s[1..], c)
  }

  /** Python's `s.split(sep)`. */
  function Split(s: string, sep: char): (parts: seq<string>)
    ensures |parts| >= 1
    ensures forall i :: 0 <= i < |parts| ==> sep !in parts[i]
    ensures |parts| == Count(s, sep) + 1
  {
    if s == [] then [""]
    else if s[0] == sep then [""] + Split(s[1..], sep)
    else
      var rest := Split(s[1..], sep);
      [[s[0]] + rest[0]] + rest[1..]
  }

  /** Python's `sep.join(parts)`. */
  function Join(sep: char, parts: seq<string>): (r: string)
    requires |parts| >= 1
    ensures (forall i :: 0 <= i < |parts| ==> sep !in parts[i]) ==> Count(r, sep) == |parts| - 1
  {
    if |parts| == 1 then
      if sep !in parts[0] then CountZero(parts[0], sep); parts[0] else parts[0]
    else
      var rest := Join(sep, parts[1..]);
      if forall i :: 0 <= i < |parts| ==> sep !in parts[i] then
        assert forall i :: 0 <= i < |parts[1..]| ==> parts[1..][i] == parts[i + 1];
        CountZero(parts[0], sep);
        CountAppend(parts[0] + [sep], rest, sep);
        CountAppend(parts[0], [sep], sep);
        assert Count([sep], sep) == 1 by { assert [sep][1..] == []; }
        parts[0] + [sep] + rest
      else parts[0] + [sep] + rest
  }

  /** Splitting joined parts that contain no separator gives the parts back. */
  lemma {:induction false} SplitJoin(sep: char, parts: seq<string>)
    requires |parts| >= 1 && forall i :: 0 <= i < |parts| ==> sep !in parts[i]
    ensures Split(Join(sep, parts), sep) == parts
  {
    if |parts| == 1 {
      SplitNoSep(parts[0], sep, []);
      assert parts[0] + [] == parts[0];
    } else {
      assert forall i :: 0 <= i < |parts[1..]| ==> parts[1..][i] == parts[i + 1];
      SplitJoin(sep, parts[1..]);
      SplitNoSep(parts[0], sep, [sep] + Join(sep, parts[1..]));
      assert parts[0] + [sep] + Join(sep, parts[1..]) == parts[0] + ([sep] + Join(sep, parts[1..]));
      assert ([sep] + Join(sep, parts[1..]))[1..] == Join(sep, parts[1..]);
      assert [parts[0]] + parts[1..] == parts;
    }
  }

  /** A separator-free prefix is glued to the first part of what follows it. */
  lemma {:induction false} SplitNoSep(p: string, sep: char, s: string)
    requires sep !in p
    ensures s == [] ==> Split(p + s, sep) == [p]
    ensures s != [] && s[0] == sep ==> Split(p + s, sep) == [p] + Split(s[1..], sep)
  {
    if p != [] {
      SplitNoSep(p[1..], sep, s);
      assert (p + s)[1..] == p[1..] + s;
      assert [p[0]] + p[1..] == p;
    } else {
      assert p + s == s;
    }
  }

  lemma {:induction false} CountAppend(a: string, b: string, c: char)
    ensures Count(a + b, c) == Count(a, c) + Count(b, c)
  {
    if a != [] {
      assert (a + b)[0] == a[0] && (a + b)[1..] == a[1..] + b;
      CountAppend(a[1..], b, c);
    } else {
      assert a + b == b;
    }
  }

  /** Joining the parts of a split with the separator gives back the string. */
  lemma {:induction false} JoinSplit(s: string, sep: char)
    ensures Join(sep, Split(s, sep)) == s
  {
    if s != [] {
      JoinSplit(s[1..], sep);
      var rest := Split(s[1..], sep);
      if s[0] != sep {
        var parts := [[s[0]] + rest[0]] + rest[1..];
        if |rest| > 1 {
          assert parts[1..] == rest[1..];
          assert Join(sep, rest) == rest[0] + [sep] + Join(sep, rest[1..]);
        }
      } else {
        assert ([""] + rest)[1..] == rest;
      }
    }
  }

  /** The outcome of `socket.gethostbyaddr`. */
  datatype ReverseLookup =
    | Found(hostname: string)
    | HostError   // socket.herror: caught
    | OtherError  // any other exception: propagates to the caller

  /**
   * `get_hostname_from_address`: a name with at most one dot is returned
   * whole with an empty domain; otherwise it is cut at its first dot. A failed
   * lookup gives the address for both. `None` when the lookup error propagates.
   */
  function HostnameFromAddress(addr: string, dns: ReverseLookup): (r: Option<(string, string)>)
    ensures r.None? <==> dns.OtherError?
    ensures dns.HostError? ==> r == Some((addr, addr))
    ensures dns.Found? && Count(dns.hostname, '.') <= 1 ==> r == Some((dns.hostname, ""))
    ensures dns.Found? && Count(dns.hostname, '.') > 1 ==>
      && r.Some?
      && r.value.0 + "." + r.value.1 == dns.hostname
      && '.' !in r.value.0
      && Count(r.value.1, '.') == Count(dns.hostname, '.') - 1
  {
    match dns
    case OtherError => None
    case HostError => Some((addr, addr))
    case Found(hostname) =>
      var parts := Split(hostname, '.');
      if |parts| <= 2 then Some((hostname, ""))
      else
        var host, domain := parts[0], Join('.', parts[1..]);
        JoinSplit(hostname, '.');
        assert Join('.', parts) == host + "." + domain;
        CountAppend(host, "." + domain, '.');
        CountAppend(".", domain, '.');
        assert Count(".", '.') == 1;
        assert host + "." + domain == host + ("." + domain);
        assert Count(host, '.') == 0 by { CountZero(host, '.'); }
        Some((host, domain))
  }

  lemma {:induction false} CountZero(s: string, c: char)
    requires c !in s
    ensures Count(s, c) == 0
  {
    if s != [] {
      CountZero(s[1..], c);
    }
  }
}
