/** The digest message sent to a group: a header naming the group's
    location, then one line for each of at most three new sightings
    (index.js:129-132). */
module Digest {
  import opened Wrappers
  import opened Text
  import opened Sightings

  /** How many new sightings a digest describes. */
  const MaxShown := 3

  /** The start of the header: an owl, then the title up to the location. */
  const HeaderLead := "\U{1F989} *New Notable Birds near "

  /** The header: an owl, the title in bold markup naming `location`, and a blank line. */
  function Header(location: string): (h: string)
    ensures OccursAt(h, location, |HeaderLead|)
    ensures StartsWith(h, HeaderLead) && h[|HeaderLead| + |location|..] == "*\n\n"
  {
    HeaderLead + location + "*\n\n"
  }

  /** One bullet line: common name, place and observation time. */
  function Line(b: Sighting): (l: string)
    ensures |l| == |b.comName| + |b.locName| + |b.obsDt| + 10
    ensures StartsWith(l, "\U{2022} " + b.comName + " at ")
    ensures OccursAt(l, b.locName, |b.comName| + 6)
    ensures OccursAt(l, " on " + b.obsDt, |l| - |b.obsDt| - 4)
  {
    "\U{2022} " + b.comName + " at " + b.locName + " on " + b.obsDt
  }

  /** The lines of a list of sightings, in order. */
  function Lines(bs: seq<Sighting>): (ls: seq<string>)
    ensures |ls| == |bs|
    ensures forall i :: 0 <= i < |bs| ==> ls[i] == Line(bs[i])
  {
    if bs == [] then [] else [Line(bs[0])] + Lines(bs[1..])
  }

  /** The sightings a digest describes: the first `MaxShown` new ones. */
  function Shown(newOnes: seq<Sighting>): (r: seq<Sighting>)
    ensures |r| == Min(MaxShown, |newOnes|) && r == newOnes[..|r|]
  {
    newOnes[..Min(MaxShown, |newOnes|)]
  }

  /** The message for a group whose location is `location`. */
  function Compose(location: string, newOnes: seq<Sighting>): (m: string)
    ensures StartsWith(m, Header(location))
  {
    Header(location) + Join(Lines(Shown(newOnes)), '\n')
  }

  /** No field of the sighting holds a line break. */
  predicate SingleLine(b: Sighting) {
    '\n' !in b.comName && '\n' !in b.locName && '\n' !in b.obsDt
  }

  lemma LineSingle(b: Sighting)
    requires SingleLine(b)
    ensures '\n' !in Line(b)
  {
    var l := Line(b);
    forall i | 0 <= i < |l| ensures l[i] != '\n' {
      var p1 := "\U{2022} " + b.comName;
      var p2 := p1 + " at " + b.locName;
      var p3 := p2 + " on ";
      assert l == p3 + b.obsDt;
      if i < |p1| {
        assert i < 2 || l[i] == b.comName[i - 2];
      } else if i < |p1| + 4 {
      } else if i < |p2| {
        assert l[i] == b.locName[i - |p1| - 4];
      } else if i < |p3| {
      } else {
        assert l[i] == b.obsDt[i - |p3|];
      }
    }
  }

  /** Read back line by line, the body of a digest for a non-empty list of
      new sightings holds exactly one line for each of the first
      `Min(MaxShown, |newOnes|)` of them, in order, provided no shown field
      breaks a line. */
  lemma ComposeLines(location: string, newOnes: seq<Sighting>)
    requires newOnes != []
    requires forall i :: 0 <= i < Min(MaxShown, |newOnes|) ==> SingleLine(newOnes[i])
    ensures var body := Compose(location, newOnes)[|Header(location)|..];
            var ls := Split(body, '\n');
            |ls| == Min(MaxShown, |newOnes|) <= MaxShown &&
            forall i :: 0 <= i < |ls| ==> ls[i] == Line(newOnes[i])
  {
    var shown := Shown(newOnes);
    var ls := Lines(shown);
    forall i | 0 <= i < |ls| ensures '\n' !in ls[i] {
      LineSingle(shown[i]);
    }
    SplitJoin(ls, '\n');
    var m := Compose(location, newOnes);
    assert m[|Header(location)|..] == Join(ls, '\n');
  }
}
