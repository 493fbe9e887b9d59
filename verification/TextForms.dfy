/** TextForms: how a text divides into documents, which of them carry nothing, and the order serialized objects are in, told
    from lines and characters alone. */
module TextForms {
  import opened Strings
  import opened Sorting
  import opened Manifests
  import opened Serializer

  // ---- lines ------------------------------------------------------------------------------------------------------

  // The position of the first character that is no white space.
  ghost predicate FirstVisible(s: string, k: nat) {
    k < |s| && !IsSpace(s[k]) && forall j | 0 <= j < k :: IsSpace(s[j])
  }

  predicate Invisible(s: string) {
    forall c | c in s :: IsSpace(c)
  }

  lemma {:induction false} TrimLeftIs(s: string)
    ensures Invisible(s) ==> TrimLeft(s) == ""
    ensures forall k: nat | FirstVisible(s, k) :: TrimLeft(s) == s[k..]
    ensures !Invisible(s) ==> exists k: nat :: FirstVisible(s, k)
  {
    if s != "" {
      if IsSpace(s[0]) {
        TrimLeftIs(s[1..]);
        assert forall c :: c in s <==> c == s[0] || c in s[1..];
        forall k: nat | FirstVisible(s, k) ensures TrimLeft(s) == s[k..] {
          assert FirstVisible(s[1..], k - 1) && s[1..][k - 1..] == s[k..];
        }
        if !Invisible(s) {
          var k: nat :| FirstVisible(s[1..], k);
          assert FirstVisible(s, k + 1);
        }
      } else {
        assert FirstVisible(s, 0);
        forall k: nat | FirstVisible(s, k) ensures k == 0 {}
      }
    }
  }

  lemma {:induction false} TrimRightPrefix(s: string, n: nat)
    requires n <= |s| && (n == 0 || !IsSpace(s[n - 1]))
    ensures |TrimRight(s)| >= n && TrimRight(s)[..n] == s[..n]
  {
    if s != "" && IsSpace(s[|s| - 1]) {
      assert n <= |s| - 1;
      TrimRightPrefix(s[..|s| - 1], n);
      assert s[..|s| - 1][..n] == s[..n];
    }
  }

  // Trimmed, a line begins with its first visible character and what follows it.
  lemma TrimmedBegins(s: string, k: nat, prefix: string)
    requires FirstVisible(s, k) && prefix != "" && !IsSpace(prefix[|prefix| - 1])
    ensures HasPrefix(TrimSpace(s), prefix) <==> HasPrefix(s[k..], prefix)
  {
    TrimLeftIs(s);
    var left := s[k..];
    if HasPrefix(left, prefix) { TrimRightPrefix(left, |prefix|); }
    TrimRightFacts(left);
  }

  /** A line ends a document if it begins with three dashes, and after them is nothing visible, or a comment. */
  lemma SeparatorExactly(line: string)
    ensures IsSeparator(line) <==>
              && |line| >= 3 && line[0] == '-' && line[1] == '-' && line[2] == '-'
              && (Invisible(line[3..]) || exists k: nat :: FirstVisible(line[3..], k) && line[3..][k] == '#')
  {
    if |line| >= 3 {
      var rest := line[3..];
      assert HasPrefix(line, "---") <==> line[0] == '-' && line[1] == '-' && line[2] == '-';
      TrimLeftIs(rest);
      if Invisible(rest) {
        assert TrimSpace(rest) == "";
      } else {
        var k: nat :| FirstVisible(rest, k);
        TrimmedBegins(rest, k, [rest[k]]);
        assert HasPrefix(rest[k..], [rest[k]]);
        forall j: nat | FirstVisible(rest, j) ensures j == k {}
      }
    }
  }

  /** A line carries nothing if it is invisible, or its visible part begins with a hash or three dashes. */
  lemma BlankExactly(line: string)
    ensures IsBlankLine(line) <==>
              || Invisible(line)
              || exists k: nat :: FirstVisible(line, k) && (line[k] == '#' || HasPrefix(line[k..], "---"))
  {
    TrimLeftIs(line);
    if Invisible(line) {
      assert TrimSpace(line) == "";
    } else {
      var k: nat :| FirstVisible(line, k);
      TrimmedBegins(line, k, [line[k]]);
      TrimmedBegins(line, k, "#");
      TrimmedBegins(line, k, "---");
      assert HasPrefix(line[k..], [line[k]]);
      assert HasPrefix(line[k..], "#") <==> line[k] == '#';
      forall j: nat | FirstVisible(line, j) ensures j == k {}
    }
  }

  // ---- documents ----------------------------------------------------------------------------------------------

  // No line of a document but the first ends one.
  ghost predicate Whole(doc: seq<string>) {
    doc != [] && forall i | 1 <= i < |doc| :: !IsSeparator(doc[i])
  }

  // The text is its documents in order, one separator line after each but perhaps the last.
  ghost predicate Divides(lines: seq<string>, docs: seq<seq<string>>)
    decreases |docs|
  {
    if docs == [] then lines == []
    else
      && Whole(docs[0]) && docs[0] <= lines
      && (if |lines| == |docs[0]| then |docs| == 1
          else IsSeparator(lines[|docs[0]|]) && Divides(lines[|docs[0]| + 1..], docs[1..]))
  }

  // The buffer and the first n lines are a document, and what follows its separator is left.
  ghost predicate Takes(lines: seq<string>, buffer: seq<string>, n: nat, doc: seq<string>, rest: seq<string>) {
    && n <= |lines| && Whole(doc) && doc == buffer + lines[..n]
    && (if n == |lines| then rest == [] else IsSeparator(lines[n]) && rest == lines[n + 1..])
  }

  lemma TakesMore(lines: seq<string>, buffer: seq<string>, n: nat, doc: seq<string>, rest: seq<string>)
    requires lines != [] && Takes(lines[1..], buffer + [lines[0]], n, doc, rest)
    ensures Takes(lines, buffer, n + 1, doc, rest)
  {
    assert buffer + [lines[0]] + lines[1..][..n] == buffer + lines[..n + 1];
    if n < |lines[1..]| { assert lines[1..][n] == lines[n + 1] && lines[1..][n + 1..] == lines[n + 2..]; }
  }

  lemma {:induction false} NextDocIs(lines: seq<string>, buffer: seq<string>) returns (n: nat)
    requires buffer == [] || Whole(buffer)
    ensures var (doc, rest) := NextDoc(lines, buffer);
            if doc.None? then lines == [] && buffer == [] else Takes(lines, buffer, n, doc.value, rest)
  {
    n := 0;
    assert buffer + lines[..0] == buffer;
    if lines != [] && !(IsSeparator(lines[0]) && buffer != []) {
      var more := buffer + [lines[0]];
      var k := NextDocIs(lines[1..], more);
      var (doc, rest) := NextDoc(lines[1..], more);
      TakesMore(lines, buffer, k, doc.value, rest);
      n := k + 1;
    }
  }

  /** The reader divides every text into its documents, losing no line but the separators. */
  lemma {:induction false} DocumentsDivide(lines: seq<string>)
    ensures Divides(lines, Documents(lines))
    decreases |lines|
  {
    var (doc, rest) := NextDoc(lines, []);
    var n := NextDocIs(lines, []);
    if doc.Some? {
      assert doc.value == lines[..n] && doc.value <= lines;
      DocumentsDivide(rest);
      assert Documents(lines) == [doc.value] + Documents(rest);
      assert Documents(lines)[1..] == Documents(rest);
      assert rest == [] ==> Documents(rest) == [];
    }
  }

  // ---- order ------------------------------------------------------------------------------------------------------

  // Less is the order of the first character that differs; a prefix comes first.
  lemma {:induction false} LessExactly(a: string, b: string)
    ensures Less(a, b) <==> exists k: nat :: DiffersAt(a, b, k)
  {
    if a != "" && b != "" && a[0] == b[0] {
      LessExactly(a[1..], b[1..]);
      forall k: nat ensures DiffersAt(a[1..], b[1..], k) <==> DiffersAt(a, b, k + 1) {
        assert k <= |a| - 1 && k <= |b| - 1 ==> (a[1..][..k] == b[1..][..k] <==> a[..k + 1] == b[..k + 1]) by {
          if k <= |a| - 1 && k <= |b| - 1 {
            assert a[..k + 1] == [a[0]] + a[1..][..k] && b[..k + 1] == [b[0]] + b[1..][..k];
          }
        }
      }
      if k: nat :| DiffersAt(a[1..], b[1..], k) { assert DiffersAt(a, b, k + 1); }
      if k: nat :| DiffersAt(a, b, k) { assert k > 0 && DiffersAt(a[1..], b[1..], k - 1); }
    } else if Less(a, b) {
      assert DiffersAt(a, b, 0);
    } else {
      forall k: nat ensures !DiffersAt(a, b, k) {
        SameStart(a, b, k);
      }
    }
  }

  lemma SameStart(a: string, b: string, k: nat)
    ensures DiffersAt(a, b, k) && k > 0 ==> a != "" && b != "" && a[0] == b[0]
  {
    if DiffersAt(a, b, k) && k > 0 { assert a[..k][0] == b[..k][0]; }
  }

  ghost predicate DiffersAt(a: string, b: string, k: nat) {
    k <= |a| && k < |b| && a[..k] == b[..k] && (k == |a| || a[k] < b[k])
  }

  /** The serialized objects are in the order of their group-kinds, and of their names within one. */
  lemma SerializedInOrder(found: seq<Found>, i: nat, j: nat)
    requires i < j < |found|
    ensures var s := Sort(ByKey, found);
            && multiset(s) == multiset(found) && |s| == |found|
            && !Less(s[j].gk, s[i].gk) && (s[i].gk == s[j].gk ==> !Less(s[j].name, s[i].name))
  {
    ByKeyIsOrder();
    SortPermutes(ByKey, found);
    SortSorts(ByKey, found);
  }
}
