/** The metric name resolver: the name of a gauge is the configured prefix,
    the accumulated path and the field key, with dots deleted, spaces turned
    into underscores and every parenthesised group removed, as Python's
    `re.sub(r"\((.*?)\)", "", name)` removes it. */
module Naming {
  import opened Strings

  /** No ')' comes before the first line break of `s` (anywhere, when `s` has none). */
  predicate NoCloseBeforeBreak(s: string)
  {
    forall j :: 0 <= j < |s| && s[j] == ')' ==> '\n' in s[..j]
  }

  /** No position of `s` starts a match of `\((.*?)\)`: after every '(' a line
      break comes before any ')' (the regex `.` does not match a line break). */
  predicate NoGroup(s: string)
  {
    forall i :: 0 <= i < |s| && s[i] == '(' ==> NoCloseBeforeBreak(s[i + 1..])
  }

  /** Where the lazy part `.*?\)` of a match that resumes at `j` ends: the first
      ')' from `j` on, unless a line break comes first. */
  function CloseAt(s: string, j: nat): (r: Option<nat>)
    requires j <= |s|
    ensures r.Some? ==> j <= r.value < |s| && s[r.value] == ')'
    ensures r.Some? ==> forall k :: j <= k < r.value ==> s[k] != ')' && s[k] != '\n'
    ensures r.None? <==> NoCloseBeforeBreak(s[j..])
    decreases |s| - j
  {
    if j == |s| then None
    else if s[j] == ')' then
      assert s[j..][0] == ')' && s[j..][..0] == [];
      Some(j)
    else if s[j] == '\n' then
      assert forall k :: 0 < k <= |s| - j ==> s[j..][..k][0] == '\n';
      None
    else
      var r := CloseAt(s, j + 1);
      assert forall k :: 0 < k < |s| - j ==> s[j..][k] == s[j + 1..][k - 1] && s[j..][..k] == [s[j]] + s[j + 1..][..k - 1];
      r
  }

  /** `re.sub(r"\((.*?)\)", "", s)`: scanning left to right, a '(' whose
      closing ')' comes before any line break is deleted together with
      everything up to and including that ')', and the scan resumes after it. */
  function StripGroups(s: string): string
    decreases |s|
  {
    if s == [] then []
    else if s[0] == '(' && CloseAt(s, 1).Some? then StripGroups(s[CloseAt(s, 1).value + 1..])
    else [s[0]] + StripGroups(s[1..])
  }

  /** Removing groups only deletes characters: what is left is a
      subsequence of the text, so it holds no character the text did not. */
  lemma {:induction false} StripGroupsChars(s: string)
    ensures forall x :: x in StripGroups(s) ==> x in s
    ensures Subsequence(StripGroups(s), s)
    decreases |s|
  {
    if s == [] {
    } else if s[0] == '(' && CloseAt(s, 1).Some? {
      var k := CloseAt(s, 1).value + 1;
      var rest := s[k..];
      StripGroupsChars(rest);
      assert forall x :: x in rest ==> x in s;
      SubsequenceOfSuffix(StripGroups(s), s, k);
    } else {
      StripGroupsChars(s[1..]);
      assert forall x :: x in s[1..] ==> x in s;
      assert ([s[0]] + StripGroups(s[1..]))[1..] == StripGroups(s[1..]);
    }
  }

  /** Dropping the first character of such a string keeps the shape, unless that character was a line break. */
  lemma NoCloseTail(s: string)
    requires s != [] && s[0] != '\n' && NoCloseBeforeBreak(s)
    ensures NoCloseBeforeBreak(s[1..])
  {
    var tail := s[1..];
    forall j | 0 <= j < |tail| && tail[j] == ')' ensures '\n' in tail[..j] {
      assert s[j + 1] == ')';
      assert '\n' in s[..j + 1];
      assert s[..j + 1] == [s[0]] + tail[..j];
    }
  }

  /** A line break in front gives the shape outright; any character but ')' in front keeps it. */
  lemma NoCloseCons(c: char, t: string)
    requires c == '\n' || (c != ')' && NoCloseBeforeBreak(t))
    ensures NoCloseBeforeBreak([c] + t)
  {
    var r := [c] + t;
    forall j | 0 <= j < |r| && r[j] == ')' ensures '\n' in r[..j] {
      assert r[..j][0] == c;
      if c != '\n' {
        assert j > 0 && t[j - 1] == ')';
        assert '\n' in t[..j - 1];
        assert r[..j] == [c] + t[..j - 1];
      }
    }
  }

  /** A string with no ')' before its first line break keeps that shape once its groups are removed. */
  lemma {:induction false} StripKeepsNoClose(s: string)
    requires NoCloseBeforeBreak(s)
    ensures NoCloseBeforeBreak(StripGroups(s))
    decreases |s|
  {
    if s == [] {
    } else if s[0] == '(' && CloseAt(s, 1).Some? {
      assert false;
    } else {
      assert s[0] != ')' by { assert s[..0] == []; }
      if s[0] != '\n' {
        NoCloseTail(s);
        StripKeepsNoClose(s[1..]);
      }
      NoCloseCons(s[0], StripGroups(s[1..]));
    }
  }

  /** After `re.sub`, no group is left to remove. */
  lemma {:induction false} StripGroupsClean(s: string)
    ensures NoGroup(StripGroups(s))
    decreases |s|
  {
    if s == [] {
    } else if s[0] == '(' && CloseAt(s, 1).Some? {
      StripGroupsClean(s[CloseAt(s, 1).value + 1..]);
    } else {
      var tail := s[1..];
      StripGroupsClean(tail);
      var rt := StripGroups(tail);
      var r := [s[0]] + rt;
      if s[0] == '(' {
        assert NoCloseBeforeBreak(s[1..]);
        StripKeepsNoClose(tail);
      }
      forall i | 0 <= i < |r| && r[i] == '(' ensures NoCloseBeforeBreak(r[i + 1..]) {
        if i == 0 {
          assert r[1..] == rt;
        } else {
          assert r[i + 1..] == rt[i..];
        }
      }
    }
  }

  /** A string with no group in it comes back unchanged. */
  lemma {:induction false} StripGroupsIdentity(s: string)
    requires NoGroup(s)
    ensures StripGroups(s) == s
    decreases |s|
  {
    if s != [] {
      if s[0] == '(' {
        assert NoCloseBeforeBreak(s[1..]);
      }
      var tail := s[1..];
      forall i | 0 <= i < |tail| && tail[i] == '(' ensures NoCloseBeforeBreak(tail[i + 1..]) {
        assert s[i + 1] == '(' && s[i + 2..] == tail[i + 1..];
      }
      StripGroupsIdentity(tail);
      assert s == [s[0]] + tail;
    }
  }

  /** Removing groups twice is the same as removing them once. */
  lemma StripGroupsIdempotent(s: string)
    ensures StripGroups(StripGroups(s)) == StripGroups(s)
  {
    StripGroupsClean(s);
    StripGroupsIdentity(StripGroups(s));
  }

  /** Lines 70-71: delete every '.', turn every space into '_', then remove the groups. */
  function Sanitize(name: string): string
  {
    StripGroups(ReplaceChar(DropChar(name, '.'), ' ', '_'))
  }

  /** A sanitised name holds no dot, no space and no group. */
  lemma SanitizeClean(name: string)
    ensures '.' !in Sanitize(name) && ' ' !in Sanitize(name)
    ensures NoGroup(Sanitize(name))
  {
    var plain := ReplaceChar(DropChar(name, '.'), ' ', '_');
    StripGroupsChars(plain);
    StripGroupsClean(plain);
  }

  /** The name of the gauge for field `key` reached through the accumulated
      path `prefix`, under the configured global prefix. */
  function MetricName(globalPrefix: string, prefix: string, key: string): string
  {
    Sanitize(globalPrefix + prefix + key)
  }

  /** A name with no dot, no space and no '(' is used verbatim. */
  lemma SanitizePlain(name: string)
    requires '.' !in name && ' ' !in name && '(' !in name
    ensures Sanitize(name) == name
  {
    var plain := ReplaceChar(DropChar(name, '.'), ' ', '_');
    assert plain == name;
    StripGroupsIdentity(name);
  }

  /** Sanitising is idempotent: a sanitised name is already plain. */
  lemma {:induction false} SanitizeIdempotent(name: string)
    ensures Sanitize(Sanitize(name)) == Sanitize(name)
  {
    var r := Sanitize(name);
    SanitizeClean(name);
    assert DropChar(r, '.') == r;
    assert ReplaceChar(r, ' ', '_') == r;
    StripGroupsIdentity(r);
  }

  /** Without dots, sanitising is underscoring the spaces and removing the groups. */
  lemma SanitizeWithoutDots(name: string)
    requires '.' !in name
    ensures Sanitize(name) == StripGroups(ReplaceChar(name, ' ', '_'))
  {
  }

  lemma NoteUnderscored()
    ensures ReplaceChar("temp (avg)", ' ', '_') == "temp_(avg)"
  {
  }

  lemma {:induction false} NoteStripped()
    ensures StripGroups("temp_(avg)") == "temp_"
  {
    assert StripGroups("(avg)") == [];
    assert "temp_(avg)" == "temp_" + "(avg)";
    StripPlainPrefix("temp_", "(avg)");
  }

  /** A parenthesised note is removed together with its parentheses. */
  lemma {:induction false} SanitizeDropsNote()
    ensures Sanitize("temp (avg)") == "temp_"
  {
    SanitizeWithoutDots("temp (avg)");
    NoteUnderscored();
    NoteStripped();
  }

  /** Dots are dropped and spaces become underscores. */
  lemma {:induction false} SanitizeDotsAndSpaces()
    ensures Sanitize("a.b c") == "ab_c"
  {
    assert DropChar("a.b c", '.') == "ab c";
    assert ReplaceChar("ab c", ' ', '_') == "ab_c";
    UnderscoredKept();
  }

  lemma UnderscoredKept()
    ensures StripGroups("ab_c") == "ab_c"
  {
    assert "ab_c" == "ab_c" + [];
    StripPlainPrefix("ab_c", []);
  }

  lemma {:induction false} NestedStripped()
    ensures StripGroups("x(a(b)c)") == "xc)"
  {
    NestedGroupDropped();
    assert "x(a(b)c)" == "x" + "(a(b)c)";
    StripPlainPrefix("x", "(a(b)c)");
  }

  /** The group opened at the first '(' closes at the first ')'. */
  lemma NestedGroupDropped()
    ensures StripGroups("(a(b)c)") == "c)"
  {
    NestedClose();
    assert "(a(b)c)"[5..] == "c)";
    TailKept();
  }

  lemma NestedClose()
    ensures CloseAt("(a(b)c)", 1) == Some(4)
  {
  }

  lemma TailKept()
    ensures StripGroups("c)") == "c)"
  {
    assert "c)" == "c)" + [];
    StripPlainPrefix("c)", []);
  }

  /** The lazy match ends at the first ')', so a nested group leaves its tail behind. */
  lemma {:induction false} SanitizeLazyMatch()
    ensures Sanitize("x(a(b)c)") == "xc)"
  {
    SanitizeWithoutDots("x(a(b)c)");
    NestedSpaceless();
    NestedStripped();
  }

  lemma NestedSpaceless()
    ensures ReplaceChar("x(a(b)c)", ' ', '_') == "x(a(b)c)"
  {
  }

  /** A prefix with no '(' is kept as it is in front of whatever the rest becomes. */
  lemma {:induction false} StripPlainPrefix(p: string, s: string)
    requires '(' !in p
    ensures StripGroups(p + s) == p + StripGroups(s)
    decreases |p|
  {
    if p == [] {
      assert p + s == s;
    } else {
      var ps := p + s;
      assert p[0] in p;
      assert ps[0] == p[0] && ps[1..] == p[1..] + s;
      assert forall x :: x in p[1..] ==> x in p;
      StripPlainPrefix(p[1..], s);
      calc {
        StripGroups(ps);
        [ps[0]] + StripGroups(ps[1..]);
        [p[0]] + (p[1..] + StripGroups(s));
        { assert p == [p[0]] + p[1..]; }
        p + StripGroups(s);
      }
    }
  }

  /** Deleting a character that a prefix does not hold leaves the prefix in place. */
  lemma DropPlainPrefix(p: string, s: string, c: char)
    requires c !in p
    ensures DropChar(p + s, c) == p + DropChar(s, c)
  {
    DropCharAppend(p, s, c);
  }

  /** A prefix with no dot, no space and no '(' survives sanitising verbatim,
      so with such a configured prefix every gauge name starts with it. */
  lemma SanitizePlainPrefix(p: string, s: string)
    requires '.' !in p && ' ' !in p && '(' !in p
    ensures Sanitize(p + s) == p + Sanitize(s)
  {
    DropPlainPrefix(p, s, '.');
    var d := DropChar(s, '.');
    assert ReplaceChar(p + d, ' ', '_') == p + ReplaceChar(d, ' ', '_');
    StripPlainPrefix(p, ReplaceChar(d, ' ', '_'));
  }
  /** A group opened at the front and closed before any line break is removed
      with its parentheses, and the scan resumes right after it. */
  lemma GroupDropped(b: string, c: string)
    requires ')' !in b && '\n' !in b
    ensures StripGroups("(" + b + ")" + c) == StripGroups(c)
  {
    var g := "(" + b + ")" + c;
    assert forall k :: 1 <= k < |b| + 1 ==> g[k] == b[k - 1];
    assert g[|b| + 1] == ')';
    assert CloseAt(g, 1) == Some(|b| + 1) by {
      assert g[1..][|b|] == ')' && g[1..][..|b|] == b;
    }
    assert g[|b| + 2..] == c;
  }

  /** Only the groups are removed: the text before a group, and the text after
      it, survive; the group itself disappears whole. */
  lemma GroupRemoved(a: string, b: string, c: string)
    requires '(' !in a && ')' !in b && '\n' !in b
    ensures StripGroups(a + "(" + b + ")" + c) == a + StripGroups(c)
  {
    assert a + "(" + b + ")" + c == a + ("(" + b + ")" + c);
    StripPlainPrefix(a, "(" + b + ")" + c);
    GroupDropped(b, c);
  }

  /** A '(' that no ')' closes before a line break is kept, and the scan goes on after it. */
  lemma UnclosedKept(a: string, c: string)
    requires '(' !in a && NoCloseBeforeBreak(c)
    ensures StripGroups(a + "(" + c) == a + "(" + StripGroups(c)
  {
    var g := "(" + c;
    assert g[1..] == c;
    assert CloseAt(g, 1).None?;
    assert StripGroups(g) == "(" + StripGroups(c);
    assert a + "(" + c == a + g;
    StripPlainPrefix(a, g);
  }
}
