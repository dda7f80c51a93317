/**
 * `create_linkpost`: where a bookmark's linkpost goes, the two guards that come
 * before any network access (destination directory missing, file already there),
 * and the document that is written.
 *
 * The file system is a map from the paths of existing regular files to their
 * contents plus the set of existing directories; `os.path.exists` is membership in
 * either, and opening a file for writing fails unless the directory part of its
 * path is an existing directory.
 */
module Linkpost {
  import opened Wrappers
  import opened Text
  import opened Extraction

  datatype DateTime = DateTime(year: int, month: int, day: int, hour: int, minute: int, second: int)

  predicate IsLeapYear(year: int) {
    year % 4 == 0 && (year % 100 != 0 || year % 400 == 0)
  }

  function DaysInMonth(year: int, month: int): int {
    if month == 2 then (if IsLeapYear(year) then 29 else 28)
    else if month == 4 || month == 6 || month == 9 || month == 11 then 30
    else 31
  }

  /**
   * A naive (zone-less) datetime as Python's `datetime` accepts it, restricted to
   * the years from 1900 on, which Python 2's `strftime` requires.
   */
  type Timestamp = t: DateTime |
    1900 <= t.year <= 9999 && 1 <= t.month <= 12 && 1 <= t.day <= DaysInMonth(t.year, t.month) &&
    0 <= t.hour < 24 && 0 <= t.minute < 60 && 0 <= t.second < 60
    witness DateTime(1970, 1, 1, 0, 0, 0)

  predicate SameDay(a: Timestamp, b: Timestamp) {
    a.year == b.year && a.month == b.month && a.day == b.day
  }

  /** `strftime('%Y-%m-%d')`. */
  function DateText(t: Timestamp): string {
    Fixed(t.year, 4) + "-" + Fixed(t.month, 2) + "-" + Fixed(t.day, 2)
  }

  /**
   * `strftime('%Y-%m-%dT%H:%M:%S%z')`. The timestamps the pipeline builds carry no
   * time zone, and `%z` of a naive datetime is empty, so no offset is printed.
   */
  function DateTimeText(t: Timestamp): string {
    DateText(t) + "T" + Fixed(t.hour, 2) + ":" + Fixed(t.minute, 2) + ":" + Fixed(t.second, 2)
  }

  /**
   * The `date:` line of the front matter starts with the day that names the file:
   * the printed datetime is the ten-character date, a `T`, and the eight-character
   * time of day.
   */
  lemma DateTimeTextStartsWithDay(t: Timestamp)
    ensures var s := DateTimeText(t);
      |s| == 19 && s[..10] == DateText(t) && s[10] == 'T' && s[13] == ':' && s[16] == ':'
  {
    var s := DateTimeText(t);
    assert |DateText(t)| == 10;
    assert s[..10] == DateText(t);
  }

  /** The printed date is ten characters long and determines the calendar day. */
  lemma DateTextDeterminesDay(a: Timestamp, b: Timestamp)
    requires DateText(a) == DateText(b)
    ensures |DateText(a)| == 10
    ensures SameDay(a, b)
  {
    var s := DateText(a);
    assert Pow10(2) == 100 && Pow10(4) == 10000;
    assert s[..4] == Fixed(a.year, 4) && DateText(b)[..4] == Fixed(b.year, 4);
    assert s[5..7] == Fixed(a.month, 2) && DateText(b)[5..7] == Fixed(b.month, 2);
    assert s[8..] == Fixed(a.day, 2) && DateText(b)[8..] == Fixed(b.day, 2);
    FixedInjective(a.year, b.year, 4);
    FixedInjective(a.month, b.month, 2);
    FixedInjective(a.day, b.day, 2);
  }

  const PostDirKey := "linkpost_post_dir"
  const DraftDirKey := "linkpost_draft_dir"
  const DefaultPostDir := "_posts/linkposts"
  const DefaultDraftDir := "_drafts/linkposts"

  /**
   * The destination directory: the configured draft directory for a draft, the
   * configured post directory otherwise, each with its default when the
   * configuration does not name one.
   */
  function TargetDir(settings: map<string, string>, isDraft: bool): string {
    if isDraft then
      (if DraftDirKey in settings then settings[DraftDirKey] else DefaultDraftDir)
    else
      (if PostDirKey in settings then settings[PostDirKey] else DefaultPostDir)
  }

  /** The file a linkpost is written to: `<dir>/<YYYY-MM-DD>-<id>.markdown`. */
  function LinkFileName(dir: string, t: Timestamp, id: string): string {
    dir + "/" + DateText(t) + "-" + id + ".markdown"
  }

  /**
   * Within one directory the file name determines the key it was made from: the
   * calendar day and the bookmark id. Two bookmarks therefore share a file only
   * when they have the same id and fall on the same day.
   */
  lemma FileNameDeterminesKey(dir: string, t1: Timestamp, id1: string, t2: Timestamp, id2: string)
    requires LinkFileName(dir, t1, id1) == LinkFileName(dir, t2, id2)
    ensures SameDay(t1, t2) && id1 == id2
  {
    var p := LinkFileName(dir, t1, id1);
    var q := LinkFileName(dir, t2, id2);
    var d1, d2 := DateText(t1), DateText(t2);
    assert |d1| == 10 && |d2| == 10;
    var n := |dir| + 1;
    assert p[n..n + 10] == d1;
    assert q[n..n + 10] == d2;
    DateTextDeterminesDay(t1, t2);
    assert p[n + 11..|p| - 9] == id1;
    assert q[n + 11..|q| - 9] == id2;
  }

  /** The directory part of a path: everything before its last '/', or "" when there is none. */
  function DirName(p: string): string {
    if p == [] then ""
    else if p[|p| - 1] == '/' then p[..|p| - 1]
    else DirName(p[..|p| - 1])
  }

  lemma {:induction false} DirNameOfChild(dir: string, name: string)
    requires '/' !in name
    ensures DirName(dir + "/" + name) == dir
    decreases |name|
  {
    var p := dir + "/" + name;
    if name == [] {
      assert p[..|p| - 1] == dir;
    } else {
      assert p[..|p| - 1] == dir + "/" + name[..|name| - 1];
      assert name[|name| - 1] in name;
      DirNameOfChild(dir, name[..|name| - 1]);
    }
  }

  /**
   * A linkpost file lies directly in its destination directory unless the bookmark
   * id itself contains a '/'.
   */
  lemma LinkFileInTargetDir(dir: string, t: Timestamp, id: string)
    requires '/' !in id
    ensures DirName(LinkFileName(dir, t, id)) == dir
  {
    var name := DateText(t) + "-" + id + ".markdown";
    assert LinkFileName(dir, t, id) == dir + "/" + name;
    forall k | 0 <= k < |name| ensures name[k] != '/' {
      if k < 10 {
        FixedDigits(t.year, 4);
        FixedDigits(t.month, 2);
        FixedDigits(t.day, 2);
        assert name[k] == DateText(t)[k];
      } else if 11 <= k < 11 + |id| {
        assert name[k] == id[k - 11];
      }
    }
    DirNameOfChild(dir, name);
  }

  /**
   * When drafts and posts go to different directories, the path of a linkpost
   * determines its key: the draft status, the calendar day and the bookmark id
   * (for ids without a '/').
   */
  lemma PathDeterminesKey(settings: map<string, string>, d1: bool, t1: Timestamp, id1: string,
                          d2: bool, t2: Timestamp, id2: string)
    requires TargetDir(settings, true) != TargetDir(settings, false)
    requires '/' !in id1 && '/' !in id2
    requires LinkFileName(TargetDir(settings, d1), t1, id1) == LinkFileName(TargetDir(settings, d2), t2, id2)
    ensures d1 == d2 && SameDay(t1, t2) && id1 == id2
  {
    LinkFileInTargetDir(TargetDir(settings, d1), t1, id1);
    LinkFileInTargetDir(TargetDir(settings, d2), t2, id2);
    assert TargetDir(settings, d1) == TargetDir(settings, d2);
    FileNameDeterminesKey(TargetDir(settings, d1), t1, id1, t2, id2);
  }

  /** `'%s' % title`: a missing title is printed as `None`. */
  function TitleText(title: Option<string>): string {
    if title.None? then "None" else title.value
  }

  /**
   * The library calls `create_linkpost` makes once its guards have passed:
   * `requests.get` followed by the parsers and extractors (`fetch`), and the
   * printed form of the list `get_meta_desc` returns (`listText`).
   */
  datatype Env = Env(fetch: string -> Page, listText: seq<string> -> string)

  /** The `%s` of `summary`: the printed meta list, or the generated text as it is. */
  function ExcerptText(env: Env, e: Excerpt): string {
    match e
    case FromMeta(contents) => env.listText(contents)
    case Generated(text) => text
  }

  /** The given lines, each followed by a newline. */
  function Terminated(lines: seq<string>): string {
    if lines == [] then "" else lines[0] + "\n" + Terminated(lines[1..])
  }

  /** Splitting a run of newline-free terminated lines gives back those lines first. */
  lemma {:induction false} SplitTerminated(lines: seq<string>, rest: string)
    requires forall k :: 0 <= k < |lines| ==> '\n' !in lines[k]
    ensures Split(Terminated(lines) + rest, '\n') == lines + Split(rest, '\n')
    decreases |lines|
  {
    if lines != [] {
      var tail := Terminated(lines[1..]) + rest;
      assert Terminated(lines) + rest == lines[0] + ['\n'] + tail;
      var after := Split(rest, '\n');
      calc {
        Split(Terminated(lines) + rest, '\n');
        { SplitAfterPiece(lines[0], '\n', tail); }
        [lines[0]] + Split(tail, '\n');
        { SplitTerminated(lines[1..], rest); }
        [lines[0]] + (lines[1..] + after);
        ([lines[0]] + lines[1..]) + after;
        { assert [lines[0]] + lines[1..] == lines; }
        lines + after;
      }
    } else {
      assert Terminated(lines) + rest == rest;
    }
  }

  /** The front matter block and the blank line after it, one entry per line. */
  function FrontMatter(title: string, date: string, url: string, excerpt: string): seq<string> {
    ["---", "layout: post", "type: 'reference'", "title: " + title, "date: " + date,
     "ref: " + url, "excerpt: " + excerpt, "---", ""]
  }

  /** The linkpost document: a front matter block, the article and a link back. */
  function LinkpostText(title: string, date: string, url: string, excerpt: string, content: string): string {
    Terminated(FrontMatter(title, date, url, excerpt)) + content + "\n\n[View Original](" + url + ")\n"
  }

  /**
   * When the title, date, url and excerpt are single lines, the document opens
   * with exactly the eight lines of the front matter block followed by a blank
   * line. A title with a line break in it breaks the block, as nothing escapes it.
   */
  lemma FrontMatterLines(title: string, date: string, url: string, excerpt: string, content: string)
    requires '\n' !in title && '\n' !in date && '\n' !in url && '\n' !in excerpt
    ensures var lines := Split(LinkpostText(title, date, url, excerpt, content), '\n');
      |lines| > 8 &&
      lines[..8] == ["---", "layout: post", "type: 'reference'", "title: " + title,
                     "date: " + date, "ref: " + url, "excerpt: " + excerpt, "---"] &&
      lines[8] == ""
  {
    var block := FrontMatter(title, date, url, excerpt);
    var rest := content + "\n\n[View Original](" + url + ")\n";
    assert LinkpostText(title, date, url, excerpt, content) == Terminated(block) + rest;
    forall k | 0 <= k < |block| ensures '\n' !in block[k] {
      if k == 3 { assert '\n' !in "title: "; }
      if k == 4 { assert '\n' !in "date: "; }
      if k == 5 { assert '\n' !in "ref: "; }
      if k == 6 { assert '\n' !in "excerpt: "; }
    }
    SplitTerminated(block, rest);
  }

  /** `os.path.exists(p)`: `p` is an existing file or directory. */
  predicate PathExists(files: map<string, string>, dirs: set<string>, p: string) {
    p in files || p in dirs
  }

  /** Opening `p` for writing succeeds when the directory part of `p` is a directory. */
  predicate Writable(dirs: set<string>, p: string) {
    p !in dirs && (DirName(p) == "" || DirName(p) in dirs)
  }

  class FileSystem {
    var files: map<string, string>
    const dirs: set<string>

    /**
     * A path names a regular file or a directory, never both. Every method keeps
     * this invariant of a real file system; the decisions of the model do not
     * depend on it.
     */
    ghost predicate Valid()
      reads this
    {
      files.Keys !! dirs
    }

    constructor (files: map<string, string>, dirs: set<string>)
      requires files.Keys !! dirs
      ensures Valid() && this.files == files && this.dirs == dirs
    {
      this.files := files;
      this.dirs := dirs;
    }

    /** `os.path.exists(p)`. */
    predicate Exists(p: string)
      reads this
    {
      PathExists(files, dirs, p)
    }

    /**
     * `io.open(p, 'w')` followed by a write: creates or replaces the file, or fails
     * with `IOError` and changes nothing.
     */
    method Write(p: string, text: string) returns (ok: bool)
      requires Valid()
      modifies this
      ensures Valid()
      ensures ok == Writable(dirs, p)
      ensures files == if ok then old(files)[p := text] else old(files)
    {
      ok := Writable(dirs, p);
      if ok {
        files := files[p := text];
      }
    }
  }

  /** How a call of `create_linkpost` ends. */
  datatype CreateResult =
    | Written(path: string, text: string)   // the linkpost was written
    | AlreadyExists(path: string)           // IOError: refusing to overwrite
    | DestinationMissing(dir: string)       // RuntimeError: no destination directory
    | OpenFailed(path: string)              // IOError from io.open

  /** The files after a call that ended with `r`. */
  function Applied(files: map<string, string>, r: CreateResult): map<string, string> {
    if r.Written? then files[r.path := r.text] else files
  }

  /** The outcome of `create_linkpost` on a file system. */
  function LinkpostOutcome(settings: map<string, string>, files: map<string, string>, dirs: set<string>,
                           env: Env, id: string, title: Option<string>, url: string, t: Timestamp,
                           isDraft: bool): CreateResult
  {
    var dir := TargetDir(settings, isDraft);
    if !PathExists(files, dirs, dir) then DestinationMissing(dir)
    else
      var name := LinkFileName(dir, t, id);
      if PathExists(files, dirs, name) then AlreadyExists(name)
      else
        var page := env.fetch(url);
        var text := LinkpostText(TitleText(title), DateTimeText(t), url,
                                 ExcerptText(env, ResolveExcerpt(page)), page.article);
        if Writable(dirs, name) then Written(name, text) else OpenFailed(name)
  }

  /**
   * The guards of `create_linkpost`. The directory check comes first: a missing
   * destination directory gives the `RuntimeError` whatever else holds. Then comes
   * the existence check on the file, and a file is written only at a path that did
   * not exist, with the document built from the fetched page.
   */
  lemma LinkpostGuards(settings: map<string, string>, files: map<string, string>, dirs: set<string>,
                       env: Env, id: string, title: Option<string>, url: string, t: Timestamp, isDraft: bool)
    ensures var r := LinkpostOutcome(settings, files, dirs, env, id, title, url, t, isDraft);
      var dir := TargetDir(settings, isDraft);
      var path := LinkFileName(dir, t, id);
      var page := env.fetch(url);
      (r.DestinationMissing? <==> !PathExists(files, dirs, dir)) &&
      (r.DestinationMissing? ==> r.dir == dir) &&
      (!r.DestinationMissing? ==> r.path == path) &&
      (r.AlreadyExists? <==> PathExists(files, dirs, dir) && PathExists(files, dirs, path)) &&
      (r.Written? <==> PathExists(files, dirs, dir) && !PathExists(files, dirs, path) && Writable(dirs, path)) &&
      (r.Written? ==> r.text == LinkpostText(TitleText(title), DateTimeText(t), url,
                                             ExcerptText(env, ResolveExcerpt(page)), page.article))
  {
  }

  /**
   * Both guards are decided before the article is fetched: when the directory is
   * missing or the file exists, the outcome is the same whatever the fetch returns
   * and whatever the title and url are.
   */
  lemma GuardsPrecedeFetch(settings: map<string, string>, files: map<string, string>, dirs: set<string>,
                           env1: Env, title1: Option<string>, url1: string,
                           env2: Env, title2: Option<string>, url2: string,
                           id: string, t: Timestamp, isDraft: bool)
    requires var dir := TargetDir(settings, isDraft);
      !PathExists(files, dirs, dir) || PathExists(files, dirs, LinkFileName(dir, t, id))
    ensures LinkpostOutcome(settings, files, dirs, env1, id, title1, url1, t, isDraft) ==
            LinkpostOutcome(settings, files, dirs, env2, id, title2, url2, t, isDraft)
  {
  }

  /** `after` holds every file of `before`, with the same contents. */
  predicate Extends(after: map<string, string>, before: map<string, string>) {
    forall q :: q in before ==> q in after && after[q] == before[q]
  }

  lemma ExtendsTransitive(a: map<string, string>, b: map<string, string>, c: map<string, string>)
    requires Extends(b, a) && Extends(c, b)
    ensures Extends(c, a)
  {
  }

  /** `create_linkpost` never changes an existing file; it adds at most one. */
  lemma OutcomeKeepsFiles(settings: map<string, string>, files: map<string, string>, dirs: set<string>,
                          env: Env, id: string, title: Option<string>, url: string, t: Timestamp, isDraft: bool)
    ensures var after := Applied(files, LinkpostOutcome(settings, files, dirs, env, id, title, url, t, isDraft));
      Extends(after, files) &&
      after.Keys <= files.Keys + {LinkFileName(TargetDir(settings, isDraft), t, id)}
  {
    LinkpostGuards(settings, files, dirs, env, id, title, url, t, isDraft);
  }

  /**
   * Once a call has got past the directory check, calling again for the same key
   * (same id and draft status, a time on the same day) on any later state of the
   * files (one that keeps what the first call left) never writes: the file is
   * there, or it still cannot be opened.
   */
  lemma RetryNeverWrites(settings: map<string, string>, files: map<string, string>, later: map<string, string>,
                         dirs: set<string>, env1: Env, env2: Env, id: string,
                         title1: Option<string>, title2: Option<string>, url1: string, url2: string,
                         t1: Timestamp, t2: Timestamp, isDraft: bool)
    requires SameDay(t1, t2)
    requires !LinkpostOutcome(settings, files, dirs, env1, id, title1, url1, t1, isDraft).DestinationMissing?
    requires Extends(later, Applied(files, LinkpostOutcome(settings, files, dirs, env1, id, title1, url1, t1, isDraft)))
    ensures var r := LinkpostOutcome(settings, later, dirs, env2, id, title2, url2, t2, isDraft);
      r.AlreadyExists? || r.OpenFailed?
  {
    var r1 := LinkpostOutcome(settings, files, dirs, env1, id, title1, url1, t1, isDraft);
    var dir := TargetDir(settings, isDraft);
    var path := LinkFileName(dir, t1, id);
    assert LinkFileName(dir, t2, id) == path by {
      assert DateText(t1) == DateText(t2);
    }
    LinkpostGuards(settings, files, dirs, env1, id, title1, url1, t1, isDraft);
    LinkpostGuards(settings, later, dirs, env2, id, title2, url2, t2, isDraft);
    OutcomeKeepsFiles(settings, files, dirs, env1, id, title1, url1, t1, isDraft);
    ExtendsTransitive(files, Applied(files, r1), later);
    assert PathExists(files, dirs, dir);
    assert PathExists(later, dirs, dir);
    if r1.Written? {
      assert path in Applied(files, r1);
    } else if r1.AlreadyExists? {
      assert PathExists(later, dirs, path);
    } else {
      assert !Writable(dirs, path);
    }
  }

  /**
   * Materialising the same (day, id, draft status) a second time, whatever the
   * title, url, time of day or fetched page, is refused as already existing and
   * leaves the file written the first time.
   */
  lemma WriteOnce(settings: map<string, string>, files: map<string, string>, dirs: set<string>,
                  env1: Env, title1: Option<string>, url1: string, t1: Timestamp,
                  env2: Env, title2: Option<string>, url2: string, t2: Timestamp,
                  id: string, isDraft: bool)
    requires SameDay(t1, t2)
    requires LinkpostOutcome(settings, files, dirs, env1, id, title1, url1, t1, isDraft).Written?
    ensures var r1 := LinkpostOutcome(settings, files, dirs, env1, id, title1, url1, t1, isDraft);
      var files1 := Applied(files, r1);
      var r2 := LinkpostOutcome(settings, files1, dirs, env2, id, title2, url2, t2, isDraft);
      r2 == AlreadyExists(r1.path) && Applied(files1, r2) == files1
  {
    assert DateText(t1) == DateText(t2);
    LinkpostGuards(settings, files, dirs, env1, id, title1, url1, t1, isDraft);
    var files1 := Applied(files, LinkpostOutcome(settings, files, dirs, env1, id, title1, url1, t1, isDraft));
    LinkpostGuards(settings, files1, dirs, env2, id, title2, url2, t2, isDraft);
  }

  /**
   * `create_linkpost` run against the file system object: the method does what
   * `LinkpostOutcome` says, and changes the files only by what it wrote.
   */
  method CreateLinkpost(settings: map<string, string>, fs: FileSystem, env: Env,
                        id: string, title: Option<string>, url: string, t: Timestamp, isDraft: bool)
    returns (r: CreateResult)
    requires fs.Valid()
    modifies fs
    ensures fs.Valid()
    ensures r == LinkpostOutcome(settings, old(fs.files), fs.dirs, env, id, title, url, t, isDraft)
    ensures fs.files == Applied(old(fs.files), r)
  {
    var path := TargetDir(settings, isDraft);
    if !fs.Exists(path) {
      return DestinationMissing(path);
    }
    var linkFileName := LinkFileName(path, t, id);
    if fs.Exists(linkFileName) {
      return AlreadyExists(linkFileName);
    }
    var page := env.fetch(url);
    var content := page.article;
    var summary := ResolveExcerpt(page);
    var keywords := DocKeywords(page); // computed, and not used in the document
    var text := LinkpostText(TitleText(title), DateTimeText(t), url, ExcerptText(env, summary), content);
    var ok := fs.Write(linkFileName, text);
    r := if ok then Written(linkFileName, text) else OpenFailed(linkFileName);
  }
}
