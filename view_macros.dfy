// "Virtual views" of the query tool: every `#name` token that starts the query text or follows
// white space names a stored file `name.sql` in the query folder; the first literal occurrence of
// `#name` is replaced by `( <file contents> ) AS name`. A token whose file is not found exactly
// once fails the whole request.

module ViewMacros {
  import opened Text
  import opened Rows
  import opened PagedFetch

  // ---------------------------------------------------------------------------------------
  // The pattern /(?:^|\s)\#(\w+)\b/ig and String.prototype.match with it

  /** A match of the pattern starts at `p`: `#` and a word character at the very start, or white space, `#` and a word character. */
  predicate TokenStart(s: string, p: int)
  {
    0 <= p < |s| &&
    ((p == 0 && s[0] == '#' && 1 < |s| && IsWordChar(s[1])) ||
     (IsSpace(s[p]) && p + 2 < |s| && s[p + 1] == '#' && IsWordChar(s[p + 2])))
  }

  /** The end of the run of word characters from `q` (the greedy `\w+`, after which `\b` always holds). */
  function WordEnd(s: string, q: nat): (r: nat)
    requires q <= |s|
    ensures q <= r <= |s|
    ensures forall k :: q <= k < r ==> IsWordChar(s[k])
    ensures r == |s| || !IsWordChar(s[r])
    decreases |s| - q
  {
    if q < |s| && IsWordChar(s[q]) then WordEnd(s, q + 1) else q
  }

  /** Where the word of the match starting at `p` begins: just after its `#`. */
  function WordStart(s: string, p: int): (q: nat)
    requires TokenStart(s, p)
    ensures p + 1 <= q <= p + 2 && q < |s| && s[q - 1] == '#' && IsWordChar(s[q])
    ensures q == p + 2 <==> IsSpace(s[p])
  {
    if s[p] == '#' then p + 1 else p + 2
  }

  function TokenEnd(s: string, p: int): (r: nat)
    requires TokenStart(s, p)
    ensures p + 2 <= r <= |s|
  {
    WordEnd(s, WordStart(s, p))
  }

  /** `s.match(pattern)` scanning from position `p`: every match, left to right, without overlap. */
  function Matches(s: string, p: nat): seq<string>
    requires p <= |s|
    decreases |s| - p
  {
    if p == |s| then []
    else if TokenStart(s, p) then [s[p..TokenEnd(s, p)]] + Matches(s, TokenEnd(s, p))
    else Matches(s, p + 1)
  }

  /** The scan finds nothing exactly when no position from `p` on starts a token. */
  lemma {:induction false} MatchesEmptyIff(s: string, p: nat)
    requires p <= |s|
    ensures Matches(s, p) == [] <==> forall i :: p <= i < |s| ==> !TokenStart(s, i)
    decreases |s| - p
  {
    if p < |s| && !TokenStart(s, p) {
      MatchesEmptyIff(s, p + 1);
    }
  }

  /** A query without any `#` has no view tokens. */
  lemma NoHashNoMatches(s: string)
    requires '#' !in s
    ensures Matches(s, 0) == []
  {
    forall i | 0 <= i < |s| ensures !TokenStart(s, i) {
      assert i + 1 < |s| ==> s[i + 1] in s;
    }
    MatchesEmptyIff(s, 0);
  }

  /** `text.replace(/\s+/g, '')`: the text without its white space. */
  function RemoveSpaces(t: string): string
  {
    if t == [] then [] else (if IsSpace(t[0]) then [] else [t[0]]) + RemoveSpaces(t[1..])
  }

  /** A whole run of word characters keeps all of them. */
  lemma {:induction false} RemoveSpacesOfWord(t: string)
    requires forall k :: 0 <= k < |t| ==> IsWordChar(t[k])
    ensures RemoveSpaces(t) == t
  {
    if t != [] {
      RemoveSpacesOfWord(t[1..]);
    }
  }

  /** Stripping white space works character by character. */
  lemma RemoveSpacesCons(c: char, t: string)
    ensures RemoveSpaces([c] + t) == (if IsSpace(c) then [] else [c]) + RemoveSpaces(t)
  {
    assert ([c] + t)[1..] == t;
  }

  /** The view text of a match: `#` followed by its word. */
  function ViewOf(m: string): string
  {
    RemoveSpaces(m)
  }

  /** The file the view text names: the word after `#`, plus `.sql`. */
  function FileNameOf(view: string): string
  {
    (if |view| > 0 then view[1..] else "") + ".sql"
  }

  /** Every match is the text of a token that starts at or after the scan position. */
  lemma {:induction false} MatchIsToken(s: string, p: nat, k: nat) returns (i: int)
    requires p <= |s| && k < |Matches(s, p)|
    ensures p <= i < |s| && TokenStart(s, i) && Matches(s, p)[k] == s[i..TokenEnd(s, i)]
    decreases |s| - p
  {
    if TokenStart(s, p) {
      if k == 0 {
        i := p;
      } else {
        i := MatchIsToken(s, TokenEnd(s, p), k - 1);
      }
    } else {
      i := MatchIsToken(s, p + 1, k);
    }
  }

  /** Stripped of white space, the token starting at `i` is its `#` and its word. */
  lemma ViewOfToken(s: string, i: int)
    requires TokenStart(s, i)
    ensures ViewOf(s[i..TokenEnd(s, i)]) == s[WordStart(s, i) - 1..TokenEnd(s, i)]
  {
    var q := WordStart(s, i);
    var m := s[i..TokenEnd(s, i)];
    var word := s[q..TokenEnd(s, i)];
    RemoveSpacesOfWord(word);
    var hashWord := ['#'] + word;
    assert s[q - 1..TokenEnd(s, i)] == hashWord;
    RemoveSpacesCons('#', word);
    if q == i + 2 {
      assert m == [s[i]] + hashWord;
      RemoveSpacesCons(s[i], hashWord);
    } else {
      assert m == hashWord;
    }
  }

  /** Stripped of white space, every match is `#` followed by a non-empty word of the query. */
  lemma MatchShape(s: string, p: nat, k: nat)
    requires p <= |s| && k < |Matches(s, p)|
    ensures exists i :: (p <= i < |s| && TokenStart(s, i)
      && ViewOf(Matches(s, p)[k]) == s[WordStart(s, i) - 1..TokenEnd(s, i)])
    ensures |ViewOf(Matches(s, p)[k])| >= 2 && ViewOf(Matches(s, p)[k])[0] == '#'
    ensures forall j :: 1 <= j < |ViewOf(Matches(s, p)[k])| ==> IsWordChar(ViewOf(Matches(s, p)[k])[j])
  {
    var i := MatchIsToken(s, p, k);
    ViewOfToken(s, i);
  }

  // ---------------------------------------------------------------------------------------
  // String.prototype.replace with a string pattern

  /** `pat` occurs in `s` at position `i`. */
  predicate OccursAt(s: string, pat: string, i: int)
  {
    0 <= i && i + |pat| <= |s| && s[i..i + |pat|] == pat
  }

  /** The first position at or after `from` where `pat` occurs (`indexOf`). */
  function IndexOf(s: string, pat: string, from: nat): (r: Option<nat>)
    ensures r.Some? ==> from <= r.value && OccursAt(s, pat, r.value)
    ensures r.Some? ==> forall j :: from <= j < r.value ==> !OccursAt(s, pat, j)
    ensures r.None? ==> forall j :: from <= j ==> !OccursAt(s, pat, j)
    decreases |s| - from
  {
    if from + |pat| > |s| then None
    else if s[from..from + |pat|] == pat then Some(from)
    else IndexOf(s, pat, from + 1)
  }

  /**
   * The replacement template as `replace` expands it for a string pattern: `$$` is `$`,
   * `$&` the matched text, `` $` `` the text before the match and `$'` the text after it;
   * every other character, `$` included, stands for itself.
   */
  function Substitute(template: string, matched: string, before: string, after: string): string
  {
    if template == [] then []
    else if template[0] == '$' && |template| >= 2 && template[1] == '$' then "$" + Substitute(template[2..], matched, before, after)
    else if template[0] == '$' && |template| >= 2 && template[1] == '&' then matched + Substitute(template[2..], matched, before, after)
    else if template[0] == '$' && |template| >= 2 && template[1] == '`' then before + Substitute(template[2..], matched, before, after)
    else if template[0] == '$' && |template| >= 2 && template[1] == '\'' then after + Substitute(template[2..], matched, before, after)
    else [template[0]] + Substitute(template[1..], matched, before, after)
  }

  /** A template without `$` is inserted as it is. */
  lemma {:induction false} SubstituteWithoutDollar(template: string, matched: string, before: string, after: string)
    requires '$' !in template
    ensures Substitute(template, matched, before, after) == template
  {
    if template != [] {
      assert template[0] != '$';
      SubstituteWithoutDollar(template[1..], matched, before, after);
      assert [template[0]] + template[1..] == template;
    }
  }

  /** `pat` occurs at `i` and nowhere before. */
  predicate FirstOccurrence(s: string, pat: string, i: int)
  {
    OccursAt(s, pat, i) && forall j :: 0 <= j < i ==> !OccursAt(s, pat, j)
  }

  /** `s.replace(pat, rep)` for a string `pat`. */
  function ReplaceFirst(s: string, pat: string, rep: string): string
  {
    match IndexOf(s, pat, 0)
    case None => s
    case Some(i) => s[..i] + Substitute(rep, pat, s[..i], s[i + |pat|..]) + s[i + |pat|..]
  }

  /**
   * Only the first occurrence of `pat` is replaced, by the expanded template (by `rep` itself when
   * `rep` holds no `$`); without an occurrence the text is unchanged.
   */
  lemma ReplaceFirstSpec(s: string, pat: string, rep: string, i: int)
    ensures (forall j :: !OccursAt(s, pat, j)) ==> ReplaceFirst(s, pat, rep) == s
    ensures FirstOccurrence(s, pat, i) ==>
      ReplaceFirst(s, pat, rep) == s[..i] + Substitute(rep, pat, s[..i], s[i + |pat|..]) + s[i + |pat|..]
    ensures FirstOccurrence(s, pat, i) && '$' !in rep ==>
      ReplaceFirst(s, pat, rep) == s[..i] + rep + s[i + |pat|..]
  {
    var r := IndexOf(s, pat, 0);
    if FirstOccurrence(s, pat, i) {
      assert r.Some?;
      if '$' !in rep {
        SubstituteWithoutDollar(rep, pat, s[..i], s[i + |pat|..]);
      }
    }
  }

  // ---------------------------------------------------------------------------------------
  // Resolving the tokens against the query folder

  /** The query folder's files by name: the contents of every file that has that name. */
  type Folder = map<string, seq<string>>

  /** The lookup by folder and name found exactly one file. */
  predicate Resolves(folder: Folder, fileName: string)
  {
    fileName in folder && |folder[fileName]| == 1
  }

  /** What a resolved token's first occurrence is replaced with. */
  function ViewSubquery(view: string, contents: string): string
  {
    "( " + contents + " ) AS " + (if |view| > 0 then view[1..] else "")
  }

  /** The file a match names. */
  function FileOf(m: string): string
  {
    FileNameOf(ViewOf(m))
  }

  /** The file names of the matches, in order. */
  function FileNames(matches: seq<string>): (names: seq<string>)
    ensures |names| == |matches|
    ensures forall j :: 0 <= j < |matches| ==> names[j] == FileOf(matches[j])
  {
    if matches == [] then [] else [FileOf(matches[0])] + FileNames(matches[1..])
  }

  /** The index of the first match whose file is not found exactly once (|matches| when there is none). */
  function FirstUnresolved(matches: seq<string>, folder: Folder): (k: nat)
    ensures k <= |matches|
    ensures forall j :: 0 <= j < k ==> Resolves(folder, FileOf(matches[j]))
    ensures k < |matches| ==> !Resolves(folder, FileOf(matches[k]))
  {
    if matches == [] then 0
    else if Resolves(folder, FileOf(matches[0])) then 1 + FirstUnresolved(matches[1..], folder)
    else 0
  }

  /** The rewrite, token by token in match order; the first unresolved token fails it. */
  function Expand(sql: string, matches: seq<string>, folder: Folder): Result<string>
    decreases |matches|
  {
    if matches == [] then Ok(sql)
    else
      var view := ViewOf(matches[0]);
      var fileName := FileNameOf(view);
      if Resolves(folder, fileName) then
        Expand(ReplaceFirst(sql, view, ViewSubquery(view, folder[fileName][0])), matches[1..], folder)
      else Err("Unresolved View " + fileName)
  }

  /** The file names looked up, in order: every token's up to and including the first unresolved one. */
  function Lookups(matches: seq<string>, folder: Folder): seq<string>
  {
    if matches == [] then []
    else
      var fileName := FileOf(matches[0]);
      [fileName] + (if Resolves(folder, fileName) then Lookups(matches[1..], folder) else [])
  }

  /**
   * The rewrite fails exactly when some token's file is not found exactly once, and then it
   * names the file of the first such token; whether it fails never depends on the SQL text.
   */
  lemma {:induction false} ExpandFailsIffUnresolved(sql: string, matches: seq<string>, folder: Folder)
    ensures Expand(sql, matches, folder).Err? <==> FirstUnresolved(matches, folder) < |matches|
    ensures Expand(sql, matches, folder).Err? <==>
      exists k :: 0 <= k < |matches| && !Resolves(folder, FileOf(matches[k]))
    ensures Expand(sql, matches, folder).Err? ==>
      Expand(sql, matches, folder).message == "Unresolved View " + FileOf(matches[FirstUnresolved(matches, folder)])
    decreases |matches|
  {
    if matches != [] {
      var view := ViewOf(matches[0]);
      var fileName := FileNameOf(view);
      if Resolves(folder, fileName) {
        var next := ReplaceFirst(sql, view, ViewSubquery(view, folder[fileName][0]));
        ExpandFailsIffUnresolved(next, matches[1..], folder);
        assert forall k :: 0 < k < |matches| ==> matches[k] == matches[1..][k - 1];
      }
    }
  }

  /** The files looked up are those of the tokens up to and including the first unresolved one, in order. */
  lemma {:induction false} LookupsStopAtFirstUnresolved(matches: seq<string>, folder: Folder)
    ensures FirstUnresolved(matches, folder) < |matches| ==>
      Lookups(matches, folder) == FileNames(matches)[..FirstUnresolved(matches, folder) + 1]
    ensures FirstUnresolved(matches, folder) == |matches| ==> Lookups(matches, folder) == FileNames(matches)
  {
    if matches != [] && Resolves(folder, FileOf(matches[0])) {
      LookupsStopAtFirstUnresolved(matches[1..], folder);
      assert FileNames(matches) == [FileOf(matches[0])] + FileNames(matches[1..]);
    }
  }

  /** A text in which no position starts a token comes back unchanged, whatever the folder holds. */
  lemma ExpandWithoutTokens(s: string, folder: Folder)
    requires forall i :: 0 <= i < |s| ==> !TokenStart(s, i)
    ensures Expand(s, Matches(s, 0), folder) == Ok(s)
    ensures Lookups(Matches(s, 0), folder) == []
  {
    MatchesEmptyIff(s, 0);
  }

  /** One token of the rewrite: resolve the first match, then go on with the rest. */
  lemma ResolveStep(sql: string, matches: seq<string>, folder: Folder)
    requires matches != []
    ensures Resolves(folder, FileOf(matches[0])) ==>
      Expand(sql, matches, folder) ==
        Expand(ReplaceFirst(sql, ViewOf(matches[0]), ViewSubquery(ViewOf(matches[0]), folder[FileOf(matches[0])][0])),
               matches[1..], folder)
      && Lookups(matches, folder) == [FileOf(matches[0])] + Lookups(matches[1..], folder)
    ensures !Resolves(folder, FileOf(matches[0])) ==>
      Expand(sql, matches, folder) == Err("Unresolved View " + FileOf(matches[0]))
      && Lookups(matches, folder) == [FileOf(matches[0])]
  {
  }

  /** The loop over the matches: resolve each in turn and replace its first occurrence. */
  method ResolveViews(sql: string, views: seq<string>, folder: Folder)
    returns (nestedSQL: Result<string>, ghost lookups: seq<string>)
    ensures nestedSQL == Expand(sql, views, folder)
    ensures lookups == Lookups(views, folder)
  {
    var nested := sql;
    lookups := [];
    for i := 0 to |views|
      invariant Expand(nested, views[i..], folder) == Expand(sql, views, folder)
      invariant lookups + Lookups(views[i..], folder) == Lookups(views, folder)
    {
      var view := ViewOf(views[i]);
      var viewFileName := FileNameOf(view);
      ghost var rest := views[i..];
      assert rest[0] == views[i] && rest[1..] == views[i + 1..];
      ResolveStep(nested, rest, folder);
      AppendAssoc(lookups, [viewFileName], Lookups(views[i + 1..], folder));
      lookups := lookups + [viewFileName];
      if Resolves(folder, viewFileName) {
        nested := ReplaceFirst(nested, view, ViewSubquery(view, folder[viewFileName][0]));
      } else {
        return Err("Unresolved View " + viewFileName), lookups;
      }
    }
    nestedSQL := Ok(nested);
  }

  /** The SQL the rewrite produces: the query plus a newline, expanded only when views are on and a folder is set. */
  function Rewrite(query: string, viewsEnabled: bool, queryFolderID: Option<int>, folder: Folder): Result<string>
  {
    var sql := query + "\n";
    if viewsEnabled && queryFolderID.Some? then Expand(sql, Matches(sql, 0), folder) else Ok(sql)
  }

  /**
   * The rewriting step of `queryExecute`: a newline is appended to the query; when views are
   * enabled and a query folder is configured, every token is resolved in match order and its
   * first literal occurrence replaced. `lookups` lists the file names looked up, in order.
   */
  method RewriteViews(query: string, viewsEnabled: bool, queryFolderID: Option<int>, folder: Folder)
    returns (nestedSQL: Result<string>, ghost lookups: seq<string>)
    ensures nestedSQL == Rewrite(query, viewsEnabled, queryFolderID, folder)
    ensures !(viewsEnabled && queryFolderID.Some?) ==> nestedSQL == Ok(query + "\n") && lookups == []
    ensures viewsEnabled && queryFolderID.Some? ==> lookups == Lookups(Matches(query + "\n", 0), folder)
  {
    var sql := query + "\n";
    nestedSQL, lookups := Ok(sql), [];
    if viewsEnabled && queryFolderID.Some? {
      var views := Matches(sql, 0);
      if |views| > 0 {
        nestedSQL, lookups := ResolveViews(sql, views, folder);
      }
    }
  }
}
