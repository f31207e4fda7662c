/** SQLite's default LIKE operator (no ESCAPE clause, no ICU): `%` matches any
    run of characters, `_` exactly one, and letters compare case-insensitively
    for ASCII only. The family search builds the pattern `%text%`. */
module SqlLike {

  /** ASCII upper case to lower case; every other character is left alone,
      as SQLite's built-in LIKE does. */
  function FoldAscii(c: char): char
  {
    if 'A' <= c <= 'Z' then (c as int + 32) as char else c
  }

  /** One pattern character against one text character. */
  predicate CharMatches(p: char, c: char)
  {
    p == '_' || FoldAscii(p) == FoldAscii(c)
  }

  /** `s LIKE p` */
  predicate Like(p: string, s: string)
    decreases |p| + |s|
  {
    if p == [] then s == []
    else if p[0] == '%' then Like(p[1..], s) || (s != [] && Like(p, s[1..]))
    else s != [] && CharMatches(p[0], s[0]) && Like(p[1..], s[1..])
  }

  /** The pattern `%text%` that the family search binds. */
  function ContainsPattern(text: string): string
  {
    "%" + text + "%"
  }

  predicate NoWildcards(t: string)
  {
    forall i :: 0 <= i < |t| ==> t[i] != '%' && t[i] != '_'
  }

  /** `t` occurs in `s` at offset `i`, ignoring ASCII case. */
  predicate OccursAt(t: string, s: string, i: int)
  {
    0 <= i && i + |t| <= |s| &&
    forall k :: 0 <= k < |t| ==> FoldAscii(t[k]) == FoldAscii(s[i + k])
  }

  predicate ContainsFolded(s: string, t: string)
  {
    exists i :: 0 <= i <= |s| && OccursAt(t, s, i)
  }

  lemma {:induction false} PercentMatchesAll(s: string)
    ensures Like("%", s)
    decreases |s|
  {
    if s != [] {
      PercentMatchesAll(s[1..]);
    }
  }

  /** A wildcard-free `t` followed by `%` matches exactly the texts that start
      with `t`, up to ASCII case. */
  lemma {:induction false} PrefixPattern(t: string, s: string)
    requires NoWildcards(t)
    ensures Like(t + "%", s) <==> OccursAt(t, s, 0)
    decreases |t|
  {
    if t == [] {
      assert t + "%" == "%";
      PercentMatchesAll(s);
    } else {
      var p := t + "%";
      assert p[0] == t[0] && p[1..] == t[1..] + "%";
      assert NoWildcards(t[1..]) by {
        forall i | 0 <= i < |t[1..]| ensures t[1..][i] != '%' && t[1..][i] != '_' {
          assert t[1..][i] == t[i + 1];
        }
      }
      if s == [] {
        assert !Like(p, s);
      } else {
        PrefixPattern(t[1..], s[1..]);
        if OccursAt(t, s, 0) {
          assert CharMatches(t[0], s[0]) by { assert FoldAscii(t[0]) == FoldAscii(s[0 + 0]); }
          assert OccursAt(t[1..], s[1..], 0) by {
            forall k | 0 <= k < |t[1..]|
              ensures FoldAscii(t[1..][k]) == FoldAscii(s[1..][0 + k])
            {
              assert FoldAscii(t[k + 1]) == FoldAscii(s[0 + (k + 1)]);
            }
          }
        }
        if Like(p, s) {
          assert CharMatches(t[0], s[0]) && OccursAt(t[1..], s[1..], 0);
          forall k | 0 <= k < |t| ensures FoldAscii(t[k]) == FoldAscii(s[0 + k]) {
            if k > 0 {
              assert FoldAscii(t[1..][k - 1]) == FoldAscii(s[1..][0 + (k - 1)]);
            }
          }
        }
      }
    }
  }

  /** A leading `%` lets the rest of the pattern match any suffix. */
  lemma {:induction false} LeadingPercent(q: string, s: string)
    ensures Like("%" + q, s) <==> exists i :: 0 <= i <= |s| && Like(q, s[i..])
    decreases |s|
  {
    var p := "%" + q;
    assert p[0] == '%' && p[1..] == q;
    if s == [] {
      if Like(q, s[0..]) { assert s[0..] == s; }
    } else {
      LeadingPercent(q, s[1..]);
      if Like(p, s) {
        if Like(q, s) {
          assert Like(q, s[0..]);
        } else {
          var j :| 0 <= j <= |s[1..]| && Like(q, s[1..][j..]);
          assert s[1..][j..] == s[j + 1..];
        }
      }
      if exists i :: 0 <= i <= |s| && Like(q, s[i..]) {
        var i :| 0 <= i <= |s| && Like(q, s[i..]);
        if i == 0 {
          assert s[0..] == s;
        } else {
          assert s[1..][i - 1..] == s[i..];
        }
      }
    }
  }

  /** The family search: with no wildcard in the search text, `name LIKE '%text%'`
      holds exactly when the text occurs in the name, ignoring ASCII case. */
  lemma ContainsPatternIsSubstring(t: string, s: string)
    requires NoWildcards(t)
    ensures Like(ContainsPattern(t), s) <==> ContainsFolded(s, t)
  {
    assert ContainsPattern(t) == "%" + (t + "%");
    LeadingPercent(t + "%", s);
    if Like(ContainsPattern(t), s) {
      var i :| 0 <= i <= |s| && Like(t + "%", s[i..]);
      PrefixPattern(t, s[i..]);
      assert OccursAt(t, s, i) by {
        forall k | 0 <= k < |t| ensures FoldAscii(t[k]) == FoldAscii(s[i + k]) {
          assert FoldAscii(t[k]) == FoldAscii(s[i..][0 + k]);
        }
      }
    }
    if ContainsFolded(s, t) {
      var i :| 0 <= i <= |s| && OccursAt(t, s, i);
      PrefixPattern(t, s[i..]);
      assert OccursAt(t, s[i..], 0) by {
        forall k | 0 <= k < |t| ensures FoldAscii(t[k]) == FoldAscii(s[i..][0 + k]) {
          assert FoldAscii(t[k]) == FoldAscii(s[i + k]);
        }
      }
    }
  }
}
