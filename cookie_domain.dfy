/**
 * The cookie-domain rule of the login and logout handlers
 * (backend/src/auth.ts:39-47 and again at 67-74): no domain for a missing
 * Origin or for `localhost`, otherwise `hostname.split('.').slice(-2).join('.')`.
 */
module CookieDomain {
  import opened Wrappers
  import opened Slices

  /** `s.split('.')`: the dot-separated labels, empty ones included; never an empty list. */
  function Split(s: string): (labels: seq<string>)
    ensures |labels| >= 1
    ensures forall i :: 0 <= i < |labels| ==> '.' !in labels[i]
  {
    if s == [] then [""]
    else
      var rest := Split(s[1..]);
      if s[0] == '.' then [""] + rest
      else [[s[0]] + rest[0]] + rest[1..]
  }

  /** `labels.join('.')`: the first label comes first; SplitJoin shows that `split` undoes it. */
  function Join(labels: seq<string>): (r: string)
    ensures |labels| >= 1 ==> labels[0] <= r
  {
    if |labels| == 0 then ""
    else if |labels| == 1 then labels[0]
    else labels[0] + "." + Join(labels[1..])
  }

  /**
   * `hostname.split('.').slice(-2).join('.')`: a suffix of the hostname with
   * at most one dot (ParentDomainLabels says which one).
   */
  function ParentDomain(hostname: string): (r: string)
    ensures EndsWith(hostname, r)
    ensures multiset(r)['.'] <= 1
  {
    ParentDomainIsSuffix(hostname);
    ParentDomainDots(hostname);
    Join(SliceLast(Split(hostname), 2))
  }

  /**
   * The `domain` attribute of the session cookie, from the hostname of the
   * request's Origin header (None when the header is absent).
   */
  function CookieDomainFor(originHost: Option<string>): (domain: Option<string>)
    ensures domain.None? <==> originHost.None? || originHost.value == "localhost"
    ensures domain.Some? ==> EndsWith(originHost.value, domain.value)
    ensures domain.Some? ==> multiset(domain.value)['.'] <= 1
  {
    match originHost
    case None => None
    case Some(h) =>
      if h == "localhost" then None
      else
        Some(ParentDomain(h))
  }


  /** Prefixing a character to the first label prefixes it to the joined string. */
  lemma JoinConsChar(c: char, first: string, rest: seq<string>)
    ensures Join([[c] + first] + rest) == [c] + Join([first] + rest)
  {
    if rest != [] {
      assert ([[c] + first] + rest)[1..] == rest;
      assert ([first] + rest)[1..] == rest;
    }
  }

  /** Joining the labels of a string gives the string back. */
  lemma {:induction false} JoinSplit(s: string)
    ensures Join(Split(s)) == s
  {
    if s != [] {
      var rest := Split(s[1..]);
      JoinSplit(s[1..]);
      if s[0] == '.' {
        assert ([""] + rest)[1..] == rest;
        assert Join([""] + rest) == "" + "." + Join(rest);
      } else {
        assert [rest[0]] + rest[1..] == rest;
        JoinConsChar(s[0], rest[0], rest[1..]);
      }
    }
  }

  /** Splitting a join of dot-free labels gives the labels back. */
  lemma {:induction false} SplitJoin(labels: seq<string>)
    requires |labels| >= 1
    requires forall i :: 0 <= i < |labels| ==> '.' !in labels[i]
    ensures Split(Join(labels)) == labels
    decreases |labels|, |labels[0]|
  {
    var first := labels[0];
    if first == [] {
      if |labels| > 1 {
        SplitJoin(labels[1..]);
        var s := Join(labels);
        assert s == "." + Join(labels[1..]);
        assert s[1..] == Join(labels[1..]);
      }
    } else {
      var tail := [first[1..]] + labels[1..];
      assert forall i :: 0 <= i < |tail| ==> '.' !in tail[i] by {
        forall i | 0 <= i < |tail| ensures '.' !in tail[i] {
          if i == 0 {
            assert forall k :: 0 <= k < |first[1..]| ==> first[1..][k] == first[k + 1];
          } else {
            assert tail[i] == labels[i];
          }
        }
      }
      SplitJoin(tail);
      assert [first[0]] + first[1..] == first;
      assert [first] + labels[1..] == labels;
      JoinConsChar(first[0], first[1..], labels[1..]);
      var s := Join(labels);
      assert s == [first[0]] + Join(tail);
      assert s[0] == first[0] && s[1..] == Join(tail);
      assert first[0] != '.' by { assert first[0] == labels[0][0]; }
    }
  }

  /** Joining two non-empty label lists puts one dot between their joins. */
  lemma {:induction false} JoinAppend(a: seq<string>, b: seq<string>)
    requires |a| >= 1 && |b| >= 1
    ensures Join(a + b) == Join(a) + "." + Join(b)
  {
    if |a| == 1 {
      assert (a + b)[1..] == b;
    } else {
      assert (a + b)[1..] == a[1..] + b;
      JoinAppend(a[1..], b);
    }
  }

  /** A string has one more label than it has dots. */
  lemma {:induction false} SplitCount(s: string)
    ensures |Split(s)| == multiset(s)['.'] + 1
  {
    if s != [] {
      SplitCount(s[1..]);
      assert s == [s[0]] + s[1..];
      assert multiset(s) == multiset([s[0]]) + multiset(s[1..]);
    }
  }

  /** The derived domain is a suffix of the hostname. */
  lemma ParentDomainIsSuffix(h: string)
    ensures EndsWith(h, Join(SliceLast(Split(h), 2)))
  {
    var labels := Split(h);
    JoinSplit(h);
    if |labels| > 2 {
      var front := labels[..|labels| - 2];
      assert labels == front + SliceLast(labels, 2);
      JoinAppend(front, SliceLast(labels, 2));
      assert h == (Join(front) + ".") + Join(SliceLast(Split(h), 2));
    }
  }

  /** The derived domain holds at most one dot. */
  lemma ParentDomainDots(h: string)
    ensures multiset(Join(SliceLast(Split(h), 2)))['.'] <= 1
  {
    var last := SliceLast(Split(h), 2);
    if |last| == 2 {
      assert last[1..] == [last[1]];
      assert Join(last[1..]) == last[1];
      assert Join(SliceLast(Split(h), 2)) == last[0] + "." + last[1];
      assert multiset(last[0])['.'] == 0 && multiset(last[1])['.'] == 0;
    }
  }

  /** The last two of a list of dot-free labels survive a join and a split. */
  lemma SplitJoinLastTwo(labels: seq<string>)
    requires |labels| >= 1
    requires forall i :: 0 <= i < |labels| ==> '.' !in labels[i]
    ensures Split(Join(SliceLast(labels, 2))) == SliceLast(labels, 2)
  {
    var last := SliceLast(labels, 2);
    forall i | 0 <= i < |last| ensures '.' !in last[i] {
      assert last[i] == labels[|labels| - |last| + i];
    }
    SplitJoin(last);
  }

  /** The derived domain consists of exactly the last two labels of the hostname. */
  lemma ParentDomainLabels(h: string)
    ensures Split(ParentDomain(h)) == SliceLast(Split(h), 2)
  {
    SplitJoinLastTwo(Split(h));
  }

  /** A hostname of at most two labels is used unchanged. */
  lemma ParentDomainOfShortHost(h: string)
    requires multiset(h)['.'] <= 1
    ensures ParentDomain(h) == h
  {
    SplitCount(h);
    JoinSplit(h);
  }

  /** For a host spelled as dot-free labels, the domain is the join of its last two labels. */
  lemma ParentDomainOfLabels(labels: seq<string>)
    requires |labels| >= 1
    requires forall i :: 0 <= i < |labels| ==> '.' !in labels[i]
    ensures ParentDomain(Join(labels)) == Join(SliceLast(labels, 2))
  {
    SplitJoin(labels);
  }

  /** A hostname with a dot is not `localhost`. */
  lemma DottedIsNotLocalhost(h: string)
    requires '.' in h
    ensures h != "localhost"
  {
    assert '.' !in "localhost";
  }

  /** A host of three dot-free labels is scoped to its parent: `app.example.com` gives `example.com`. */
  lemma CookieDomainOfThreeLabels(a: string, b: string, c: string)
    requires '.' !in a && '.' !in b && '.' !in c
    ensures CookieDomainFor(Some(a + "." + b + "." + c)) == Some(b + "." + c)
  {
    var host := a + "." + b + "." + c;
    assert host[|a|] == '.';
    DottedIsNotLocalhost(host);
    var labels := [a, b, c];
    assert labels[1..][1..] == [c];
    assert Join(labels[1..]) == b + "." + c;
    assert Join(labels) == a + "." + b + "." + c;
    assert SliceLast(labels, 2) == labels[1..];
    ParentDomainOfLabels(labels);
  }

  /**
   * A host of four dot-free labels is scoped to its last two, even when they
   * form a multi-label public suffix: `app.example.pages.dev` gives `pages.dev`.
   */
  lemma CookieDomainOfFourLabels(a: string, b: string, c: string, d: string)
    requires '.' !in a && '.' !in b && '.' !in c && '.' !in d
    ensures CookieDomainFor(Some(a + "." + b + "." + c + "." + d)) == Some(c + "." + d)
  {
    var host := a + "." + b + "." + c + "." + d;
    assert host[|a|] == '.';
    DottedIsNotLocalhost(host);
    var labels := [a, b, c, d];
    var last := [c, d];
    assert last[1..] == [d];
    assert Join(last) == c + "." + d;
    assert labels[1..] == [b] + last && labels[1..][1..] == last;
    assert Join(labels[1..]) == b + "." + c + "." + d;
    assert Join(labels) == a + "." + b + "." + c + "." + d;
    assert SliceLast(labels, 2) == last by { assert labels[2..] == last; }
    ParentDomainOfLabels(labels);
  }
}
