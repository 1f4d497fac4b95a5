/** The part of `pathlib` the program relies on: joining one name onto a
    path with `/`, and `str()` of the result. */
module Paths {

  /** A path: its anchor (empty for a relative path, `/` or a drive such as
      `C:\` for an absolute one) and its names, outermost first. */
  datatype Path = Path(anchor: string, names: seq<string>)

  /** `p / name` for a single name. */
  function Join(p: Path, name: string): Path {
    Path(p.anchor, p.names + [name])
  }

  /** The names separated by `sep`. */
  function JoinNames(names: seq<string>, sep: char): string {
    if names == [] then ""
    else if |names| == 1 then names[0]
    else names[0] + [sep] + JoinNames(names[1..], sep)
  }

  /** `str(p)`; `sep` is the platform's separator. */
  function Render(p: Path, sep: char): string {
    p.anchor + JoinNames(p.names, sep)
  }

  /** The separator that `p / name` puts between `str(p)` and the name: none
      after a bare anchor. */
  function SepAfter(p: Path, sep: char): string {
    if p.names == [] then "" else [sep]
  }

  lemma {:induction false} JoinNamesSnoc(names: seq<string>, name: string, sep: char)
    ensures JoinNames(names + [name], sep) == JoinNames(names, sep) + (if names == [] then "" else [sep]) + name
  {
    if |names| > 1 {
      JoinNamesSnoc(names[1..], name, sep);
      assert (names + [name])[1..] == names[1..] + [name];
    } else if |names| == 1 {
      assert (names + [name])[1..] == [name];
    }
  }

  /** `str(p / name)` is `str(p)`, a separator and the name. */
  lemma RenderJoin(p: Path, name: string, sep: char)
    ensures Render(Join(p, name), sep) == Render(p, sep) + SepAfter(p, sep) + name
  {
    JoinNamesSnoc(p.names, name, sep);
  }

  /** `str(p / a / b)`. */
  lemma RenderJoinTwice(p: Path, a: string, b: string, sep: char)
    ensures Render(Join(Join(p, a), b), sep) == Render(p, sep) + SepAfter(p, sep) + a + [sep] + b
  {
    RenderJoin(p, a, sep);
    RenderJoin(Join(p, a), b, sep);
  }
}
