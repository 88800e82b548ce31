/** The breadcrumb trail of frontend/src/components/layout/Breadcrumb.jsx: the path is split
    into its non-empty segments, and each segment becomes a crumb linking to the path up to
    it, labelled by a fixed French name when it has one. The leading "Accueil" link is
    constant and not modelled. */
module Breadcrumb {
  import opened Wrappers
  import Text
  import Seqs

  /** `pathname.split('/').filter((x) => x)`. */
  function Pathnames(path: string): (r: seq<string>)
    ensures forall i :: 0 <= i < |r| ==> r[i] != "" && '/' !in r[i]
  {
    Seqs.Filter(Text.Split(path, '/'), (x: string) => x != "")
  }

  /** `breadcrumbNameMap`. */
  function NameMap(): map<string, string>
  {
    map["" := "Tableau de bord", "requests" := "Mes demandes", "employees" := "Employés",
        "services" := "Services", "validation" := "Validation", "reports" := "Rapports",
        "accounts" := "Comptes"]
  }

  /** `breadcrumbNameMap[value] || value`: every mapped name is non-empty, so the fallback is
      used exactly for unmapped segments. */
  function Label(value: string): (r: string)
    ensures value in NameMap() ==> r == NameMap()[value]
    ensures value !in NameMap() ==> r == value
  {
    var m := NameMap();
    if value in m && m[value] != "" then m[value] else value
  }

  /** One crumb: its caption, its link target, and whether it is the last one (shown as text
      rather than a link). */
  datatype Crumb = Crumb(caption: string, to: string, last: bool)

  /** The crumb at `index`. */
  function CrumbAt(pathnames: seq<string>, index: nat): (c: Crumb)
    requires index < |pathnames|
  {
    Crumb(Label(pathnames[index]), "/" + Text.Join(pathnames[..index + 1], "/"), index == |pathnames| - 1)
  }

  /** `pathnames.map(...)`. */
  function Crumbs(path: string): (r: seq<Crumb>)
    ensures |r| == |Pathnames(path)|
    ensures forall i :: 0 <= i < |r| ==> r[i] == CrumbAt(Pathnames(path), i)
  {
    var ps := Pathnames(path);
    seq(|ps|, i requires 0 <= i < |ps| => CrumbAt(ps, i))
  }

  /** Exactly one crumb is the last, and it is the final one. */
  lemma OneLastCrumb(path: string)
    ensures forall i :: 0 <= i < |Crumbs(path)| ==> (Crumbs(path)[i].last <==> i == |Crumbs(path)| - 1)
  {
  }

  /** Following the link of crumb `i` leads to a path whose segments are the first `i + 1`
      segments of the current one: each crumb links to its own ancestor. */
  lemma CrumbLinksToPrefix(path: string, i: nat)
    requires i < |Pathnames(path)|
    ensures Pathnames(Crumbs(path)[i].to) == Pathnames(path)[..i + 1]
  {
    var ps := Pathnames(path)[..i + 1];
    assert Crumbs(path)[i].to == "/" + Text.Join(ps, "/");
    SegmentsReadBack(ps);
  }

  /** Joining non-empty segments without a slash behind a leading slash gives a path whose
      segments are those. */
  lemma SegmentsReadBack(ps: seq<string>)
    requires |ps| >= 1
    requires forall k :: 0 <= k < |ps| ==> '/' !in ps[k] && ps[k] != ""
    ensures Pathnames("/" + Text.Join(ps, "/")) == ps
  {
    SplitJoinedAfterSlash(ps);
    FilterDropsEmpty(ps);
  }

  /** Splitting at the slashes gives an empty piece for the leading slash, then the segments. */
  lemma SplitJoinedAfterSlash(ps: seq<string>)
    requires |ps| >= 1
    requires forall k :: 0 <= k < |ps| ==> '/' !in ps[k]
    ensures Text.Split("/" + Text.Join(ps, "/"), '/') == [""] + ps
  {
    Text.SplitJoin(ps, '/');
    SplitAfterSeparator(Text.Join(ps, "/"), '/');
  }

  /** A leading separator splits off one empty piece. */
  lemma SplitAfterSeparator(b: string, c: char)
    ensures Text.Split([c] + b, c) == [""] + Text.Split(b, c)
  {
    Text.SplitAtFirst([], c, b);
    assert [] + [c] + b == [c] + b;
  }

  /** Filtering out empty strings from `[""] + ps`, where no element of `ps` is empty,
      gives `ps`. */
  lemma {:induction false} FilterDropsEmpty(ps: seq<string>)
    requires forall k :: 0 <= k < |ps| ==> ps[k] != ""
    ensures Seqs.Filter([""] + ps, (x: string) => x != "") == ps
  {
    assert ([""] + ps)[1..] == ps;
    KeepNonEmpty(ps);
  }

  lemma {:induction false} KeepNonEmpty(ps: seq<string>)
    requires forall k :: 0 <= k < |ps| ==> ps[k] != ""
    ensures Seqs.Filter(ps, (x: string) => x != "") == ps
  {
    if ps != [] {
      KeepNonEmpty(ps[1..]);
      assert [ps[0]] + ps[1..] == ps;
    }
  }

  /** Repeated and trailing slashes make no empty crumbs: `/x/` and `//x` give the same
      trail as `/x`. */
  lemma SlashesIgnored(seg: string)
    requires seg != "" && '/' !in seg
    ensures Pathnames("/" + seg) == [seg]
    ensures Pathnames("/" + seg + "/") == [seg]
    ensures Pathnames("//" + seg) == [seg]
  {
    DropEmpties(seg);
    SplitLeadingSlash(seg);
    SplitTrailingSlash(seg);
    SplitDoubleSlash(seg);
  }

  lemma SplitLeadingSlash(seg: string)
    requires '/' !in seg
    ensures Text.Split("/" + seg, '/') == ["", seg]
  {
    Text.SplitNoSeparator(seg, '/');
    Text.SplitAtFirst("", '/', seg);
    assert "/" + seg == "" + ['/'] + seg;
  }

  lemma SplitTrailingSlash(seg: string)
    requires '/' !in seg
    ensures Text.Split("/" + seg + "/", '/') == ["", seg, ""]
  {
    Text.SplitNoSeparator("", '/');
    Text.SplitAtFirst(seg, '/', "");
    assert seg + ['/'] + "" == seg + "/";
    Text.SplitAtFirst("", '/', seg + "/");
    assert "/" + seg + "/" == "" + ['/'] + (seg + "/");
  }

  lemma SplitDoubleSlash(seg: string)
    requires '/' !in seg
    ensures Text.Split("//" + seg, '/') == ["", "", seg]
  {
    SplitLeadingSlash(seg);
    Text.SplitAtFirst("", '/', "/" + seg);
    assert "//" + seg == "" + ['/'] + ("/" + seg);
  }

  lemma DropEmpties(seg: string)
    requires seg != ""
    ensures Seqs.Filter(["", seg], (x: string) => x != "") == [seg]
    ensures Seqs.Filter(["", seg, ""], (x: string) => x != "") == [seg]
    ensures Seqs.Filter(["", "", seg], (x: string) => x != "") == [seg]
  {
    assert ["", seg][1..] == [seg];
    assert [seg][1..] == [];
    assert ["", seg, ""][1..] == [seg, ""];
    assert [seg, ""][1..] == [""];
    assert [""][1..] == [];
    assert ["", "", seg][1..] == ["", seg];
  }
}
