/**
 The node trees of go-yaml (go-yaml/yaml.go:376-420) without comments and positions, and
 the tag spellings of go-yaml/resolve.go.

 A node's identity, a pointer in the source, is its `id`: the number of nodes created before
 it.  An alias names the id of the node it stands for.
 */
module YamlTree {
  datatype Quoting = Bare | DoubleQuoted | SingleQuoted | Literal | Folded

  datatype Style = Style(tagged: bool, quoting: Quoting, flow: bool)

  datatype Node =
    | Scalar(id: nat, tag: string, value: string, anchor: string, style: Style)
    | Sequence(id: nat, tag: string, anchor: string, style: Style, items: seq<Node>)
    | Mapping(id: nat, tag: string, anchor: string, style: Style, pairs: seq<Pair>)
    | Alias(id: nat, value: string, target: nat)

  datatype Pair = Pair(key: Node, value: Node)

  const LONG_PREFIX := "tag:yaml.org,2002:"
  const STR_TAG := "!!str"
  const SEQ_TAG := "!!seq"
  const MAP_TAG := "!!map"
  const MERGE_TAG := "!!merge"
  const NULL_TAG := "!!null"

  function ShortTag(tag: string): string {
    if LONG_PREFIX <= tag then "!!" + tag[|LONG_PREFIX|..] else tag
  }

  function LongTag(tag: string): string {
    if "!!" <= tag then LONG_PREFIX + tag[2..] else tag
  }

  /** The two spellings of a tag of YAML's own; every other tag has one. */
  lemma Spellings(name: string, tag: string)
    ensures ShortTag("tag:yaml.org,2002:" + name) == "!!" + name && LongTag("!!" + name) == "tag:yaml.org,2002:" + name
    ensures !("tag:yaml.org,2002:" <= tag) ==> ShortTag(tag) == tag
    ensures !("!!" <= tag) ==> LongTag(tag) == tag
  {
    var long, short := "tag:yaml.org,2002:" + name, "!!" + name;
    assert LONG_PREFIX <= long && long[|LONG_PREFIX|..] == name;
    assert "!!" <= short && short[2..] == name;
  }

  /** A short tag survives being written in long form. */
  lemma ShortOfLong(tag: string)
    requires ShortTag(tag) == tag
    ensures ShortTag(LongTag(tag)) == tag
  {
    if "!!" <= tag {
      assert LongTag(tag)[|LONG_PREFIX|..] == tag[2..];
      assert tag == "!!" + tag[2..];
    }
  }

  predicate IsMerge(n: Node) {
    n.Scalar? && n.value == "<<" && (n.tag == "" || n.tag == "!" || ShortTag(n.tag) == MERGE_TAG)
  }
}
