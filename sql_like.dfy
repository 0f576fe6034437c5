/**
 * SQLite's built-in LIKE operator with no ESCAPE clause: '%' matches any run
 * of characters, '_' matches exactly one, and every other pattern character
 * matches itself ignoring the case of ASCII letters only.
 */
module SqlLike {

  /** Folds an ASCII upper-case letter to lower case; every other character is kept. */
  function Fold(c: char): char {
    if 'A' <= c <= 'Z' then (c as int + 32) as char else c
  }

  /** `s LIKE p` */
  predicate Like(p: string, s: string)
    decreases |p| + |s|
  {
    if p == [] then s == []
    else if p[0] == '%' then Like(p[1..], s) || (s != [] && Like(p, s[1..]))
    else s != [] && (p[0] == '_' || Fold(p[0]) == Fold(s[0])) && Like(p[1..], s[1..])
  }

  predicate NoWildcards(t: string) {
    '%' !in t && '_' !in t
  }

  /** `t` is a prefix of `s` up to ASCII case. */
  ghost predicate FoldedPrefix(t: string, s: string) {
    |t| <= |s| && forall k :: 0 <= k < |t| ==> Fold(t[k]) == Fold(s[k])
  }

  /** `t` occurs somewhere in `s` up to ASCII case. */
  ghost predicate ContainsFolded(s: string, t: string) {
    exists i :: 0 <= i <= |s| && FoldedPrefix(t, s[i..])
  }

  /** A lone '%' matches every string. */
  lemma {:induction false} PercentMatchesAll(s: string)
    ensures Like("%", s)
  {
    if s != [] {
      PercentMatchesAll(s[1..]);
    }
  }

  /** A literal text followed by '%' matches exactly the strings it is a prefix of. */
  lemma {:induction false} LikePrefix(t: string, s: string)
    requires NoWildcards(t)
    ensures Like(t + "%", s) <==> FoldedPrefix(t, s)
  {
    if t == [] {
      assert t + "%" == "%";
      PercentMatchesAll(s);
    } else {
      assert (t + "%")[0] == t[0];
      assert (t + "%")[1..] == t[1..] + "%";
      if s != [] {
        LikePrefix(t[1..], s[1..]);
        if FoldedPrefix(t[1..], s[1..]) && Fold(t[0]) == Fold(s[0]) {
          forall k | 0 <= k < |t|
            ensures Fold(t[k]) == Fold(s[k])
          {
            if k > 0 {
              assert t[1..][k - 1] == t[k] && s[1..][k - 1] == s[k];
            }
          }
        }
        if FoldedPrefix(t, s) {
          assert Fold(t[0]) == Fold(s[0]);
          forall k | 0 <= k < |t[1..]|
            ensures Fold(t[1..][k]) == Fold(s[1..][k])
          {
            assert t[1..][k] == t[k + 1] && s[1..][k] == s[k + 1];
          }
        }
      }
    }
  }

  /** A pattern that starts with '%' matches when the rest matches some suffix. */
  lemma {:induction false} LikeLeadingPercent(u: string, s: string)
    ensures Like("%" + u, s) <==> exists i :: 0 <= i <= |s| && Like(u, s[i..])
  {
    var p := "%" + u;
    assert p[0] == '%' && p[1..] == u;
    if s == [] {
      assert s[0..] == s;
    } else {
      LikeLeadingPercent(u, s[1..]);
      if Like(p, s[1..]) {
        var i :| 0 <= i <= |s[1..]| && Like(u, s[1..][i..]);
        assert s[1..][i..] == s[i + 1..];
      }
      if Like(u, s) {
        assert s[0..] == s;
      }
      if exists i :: 0 <= i <= |s| && Like(u, s[i..]) {
        var i :| 0 <= i <= |s| && Like(u, s[i..]);
        if i > 0 {
          assert s[1..][i - 1..] == s[i..];
        } else {
          assert s[0..] == s;
        }
      }
    }
  }

  /**
   * The search pattern `%text%` built by the report query matches a name
   * exactly when the text occurs in it ignoring ASCII case, as long as the
   * text holds no wildcard.
   */
  lemma SearchIsSubstring(text: string, name: string)
    requires NoWildcards(text)
    ensures Like("%" + text + "%", name) <==> ContainsFolded(name, text)
  {
    assert "%" + text + "%" == "%" + (text + "%");
    LikeLeadingPercent(text + "%", name);
    forall i | 0 <= i <= |name|
      ensures Like(text + "%", name[i..]) <==> FoldedPrefix(text, name[i..])
    {
      LikePrefix(text, name[i..]);
    }
  }
}
