/** What a built-in validator leaves behind besides its verdict: at most one write into the record. */
module Effects {
  import opened Js
  import opened Results
  import opened Inbuilt
  import JsRecords

  /** A write through the modifier (`setThis`) or into the object being validated in place. */
  datatype Write = NoWrite | WriteAt(segs: seq<string>, v: Value)

  datatype Effect = Effect(verdict: Verdict, write: Write)

  function ApplyWrite(r: Record, w: Write): Record
  {
    match w
    case NoWrite => r
    case WriteAt(segs, v) => if segs == [] then r else PathSet(r, segs, v)
  }

  /** A verdict that writes nothing. */
  function Only(v: Verdict): (e: Effect)
    ensures e.verdict == v && e.write == NoWrite
  {
    Effect(v, NoWrite)
  }

  /** A second write to the same path replaces the first. */
  lemma {:induction false} PathSetTwice(r: Record, segs: seq<string>, a: Value, b: Value)
    requires |segs| >= 1
    decreases segs
    ensures PathSet(PathSet(r, segs, a), segs, b) == PathSet(r, segs, b)
  {
    if |segs| == 1 {
      JsRecords.PutTwice(r, segs[0], a, b);
    } else {
      var child := Get(r, segs[0]);
      var inner := if child.Obj? then child.props else [];
      var once := PathSet(inner, segs[1..], a);
      JsRecords.PutProps(r, segs[0], Obj(once));
      PathSetTwice(inner, segs[1..], a, b);
      JsRecords.PutTwice(r, segs[0], Obj(once), Obj(PathSet(inner, segs[1..], b)));
    }
  }
}
