/** Strings as the Go programs see them: white space, trimming, and byte order. */
module Text {
  import opened Prelude

  /** The characters that unicode.IsSpace accepts. */
  predicate IsSpace(c: char) {
    var n := c as int;
    || 0x09 <= n <= 0x0D || n == 0x20 || n == 0x85 || n == 0xA0 || n == 0x1680
    || 0x2000 <= n <= 0x200A || n == 0x2028 || n == 0x2029 || n == 0x202F || n == 0x205F || n == 0x3000
  }

  function TrimLeft(s: string): string {
    if s != [] && IsSpace(s[0]) then TrimLeft(s[1..]) else s
  }

  function TrimRight(s: string): string {
    if s != [] && IsSpace(s[|s| - 1]) then TrimRight(s[..|s| - 1]) else s
  }

  function TrimSpace(s: string): string { TrimRight(TrimLeft(s)) }

  predicate Blank(s: string) { TrimSpace(s) == "" }

  ghost predicate AllSpace(s: string) { forall c :: c in s ==> IsSpace(c) }

  lemma {:induction false} TrimLeftExact(s: string) returns (before: string)
    ensures s == before + TrimLeft(s) && AllSpace(before)
    ensures TrimLeft(s) != "" ==> !IsSpace(TrimLeft(s)[0])
  {
    hide IsSpace;
    before := "";
    if s != [] && IsSpace(s[0]) {
      before := TrimLeftExact(s[1..]);
      assert s == [s[0]] + s[1..];
      before := [s[0]] + before;
    }
  }

  lemma {:induction false} TrimRightExact(s: string) returns (after: string)
    ensures s == TrimRight(s) + after && AllSpace(after)
    ensures TrimRight(s) != "" ==> !IsSpace(TrimRight(s)[|TrimRight(s)| - 1])
  {
    hide IsSpace;
    after := "";
    if s != [] && IsSpace(s[|s| - 1]) {
      after := TrimRightExact(s[..|s| - 1]);
      assert s == s[..|s| - 1] + [s[|s| - 1]];
      after := after + [s[|s| - 1]];
    }
  }

  /** Trimming removes white space at both ends, all of it and nothing else. */
  lemma TrimSpaceExact(s: string) returns (before: string, after: string)
    ensures s == before + TrimSpace(s) + after && AllSpace(before) && AllSpace(after)
    ensures var t := TrimSpace(s); t != "" ==> !IsSpace(t[0]) && !IsSpace(t[|t| - 1])
  {
    hide IsSpace, TrimLeft, TrimRight;
    before := TrimLeftExact(s);
    after := TrimRightExact(TrimLeft(s));
  }

  /** Strict lexicographic order by code point; it is the order of the UTF-8 bytes. */
  predicate Less(s: string, t: string) {
    t != [] && (s == [] || s[0] < t[0] || (s[0] == t[0] && Less(s[1..], t[1..])))
  }

  lemma {:induction false} LessIrreflexive(s: string)
    ensures !Less(s, s)
  {
    if s != [] { LessIrreflexive(s[1..]); }
  }

  lemma {:induction false} LessTransitive(s: string, t: string, u: string)
    requires Less(s, t) && Less(t, u)
    ensures Less(s, u)
  {
    if s != [] && s[0] == t[0] == u[0] { LessTransitive(s[1..], t[1..], u[1..]); }
  }

  lemma {:induction false} LessTotal(s: string, t: string)
    ensures Less(s, t) || s == t || Less(t, s)
  {
    if s != [] && t != [] && s[0] == t[0] {
      LessTotal(s[1..], t[1..]);
      assert s == [s[0]] + s[1..] && t == [t[0]] + t[1..];
    }
  }

  /** The order is decided at the first difference; a proper beginning comes first. */
  lemma {:induction false} LessExact(s: string, t: string)
    ensures Less(s, t) <==> exists i :: 0 <= i <= |s| && i < |t| && s[..i] == t[..i] && (i == |s| || s[i] < t[i])
  {
    if s == "" {
      assert t != "" ==> s[..0] == t[..0];
    } else if t != "" {
      LessExact(s[1..], t[1..]);
      if Less(s, t) {
        if s[0] < t[0] {
          assert s[..0] == t[..0];
        } else {
          var i :| 0 <= i <= |s[1..]| && i < |t[1..]| && s[1..][..i] == t[1..][..i] && (i == |s[1..]| || s[1..][i] < t[1..][i]);
          assert s[..i + 1] == [s[0]] + s[1..][..i] && t[..i + 1] == [t[0]] + t[1..][..i];
        }
      }
      forall i | 0 < i <= |s| && i < |t| && s[..i] == t[..i] && (i == |s| || s[i] < t[i]) ensures Less(s, t) {
        assert s[0] == s[..i][0] == t[..i][0] == t[0];
        assert s[1..][..i - 1] == s[..i][1..] && t[1..][..i - 1] == t[..i][1..];
      }
    }
  }

  ghost predicate Ascending(xs: seq<string>) {
    forall i, j :: 0 <= i < j < |xs| ==> Less(xs[i], xs[j])
  }

  predicate IsLeast(least: string, s: set<string>) {
    least in s && forall t :: t in s && t != least ==> Less(least, t)
  }

  lemma {:induction false} LeastExists(s: set<string>)
    requires s != {}
    ensures exists least :: IsLeast(least, s)
  {
    var x :| x in s;
    if s == {x} {
      assert IsLeast(x, s);
    } else {
      var rest := s - {x};
      assert s == rest + {x};
      LeastExists(rest);
      var y :| IsLeast(y, rest);
      LessTotal(x, y);
      if Less(x, y) {
        forall t | t in s && t != x ensures Less(x, t) {
          if t != y { LessTransitive(x, y, t); }
        }
        assert IsLeast(x, s);
      } else {
        assert IsLeast(y, s);
      }
    }
  }

  lemma LeastUnique(s: set<string>)
    ensures forall a, b :: IsLeast(a, s) && IsLeast(b, s) ==> a == b
  {
    forall a, b | IsLeast(a, s) && IsLeast(b, s) ensures a == b {
      if a != b {
        LessTransitive(a, b, a);
        LessIrreflexive(a);
      }
    }
  }

  function Least(s: set<string>): (least: string)
    requires s != {}
    ensures IsLeast(least, s)
  {
    LeastExists(s);
    LeastUnique(s);
    var m :| m in s && IsLeast(m, s);
    m
  }

  /** What sort.Strings makes of the keys of a Go map. */
  function SortedKeys(s: set<string>): (r: seq<string>)
    ensures forall x :: x in r <==> x in s
    ensures Ascending(r)
    decreases s
  {
    if s == {} then []
    else
      var m := Least(s);
      [m] + SortedKeys(s - {m})
  }

  lemma {:induction false} SortedSize(s: set<string>)
    ensures |SortedKeys(s)| == |s|
    decreases s
  {
    if s != {} {
      var m := Least(s);
      SortedSize(s - {m});
    }
  }
}
