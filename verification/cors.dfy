/**
 * The server's CORS configuration: the `origin` callback over the list of
 * allowed front-end origins.
 */
module Cors {
  import opened Common

  const AllowedOrigins: seq<string> := [
    "https://srkr-complaint.vercel.app",
    "https://srkr-complaint-git-main-kirans-projects-8f6d027e9.vercel.app",
    "https://srkr-complaint-2jeyte0o5-kirans-projects-8f6d027e9.vercel.app"
  ]

  const DenialMessage: string :=
    "The CORS policy for this site does not allow access from the specified Origin."

  /** What the `origin` callback reports: allowed, or an error with `false`. */
  datatype Decision = Allow | Deny(message: string)

  /** `Array.prototype.indexOf`: the first position of `x`, or -1. */
  function IndexOf(xs: seq<string>, x: string): (i: int)
    ensures i == -1 <==> x !in xs
    ensures i != -1 ==> 0 <= i < |xs| && xs[i] == x && x !in xs[..i]
    decreases |xs|
  {
    if xs == [] then -1
    else if xs[0] == x then 0
    else
      var j := IndexOf(xs[1..], x);
      if j == -1 then -1
      else
        assert xs[..j + 1] == [xs[0]] + xs[1..][..j];
        j + 1
  }

  /**
   * The `origin` callback. A missing Origin header, and an empty one (both are
   * falsy), is allowed; otherwise the origin must be one of the listed strings
   * exactly.
   */
  function CheckOrigin(origin: Option<string>): (d: Decision)
    ensures d.Allow? <==> origin.None? || origin.value == "" || origin.value in AllowedOrigins
    ensures d.Deny? ==> d.message == DenialMessage
  {
    match origin
    case None => Allow
    case Some(o) =>
      if o == "" then Allow
      else if IndexOf(AllowedOrigins, o) == -1 then Deny(DenialMessage)
      else Allow
  }

  /**
   * Worked examples of `CheckOrigin`: the front end's own origin passes, while a
   * look-alike host that only extends it and the plain-http origin do not.
   */
  lemma ListedOriginsOnly()
    ensures CheckOrigin(Some("https://srkr-complaint.vercel.app")) == Allow
    ensures CheckOrigin(Some("https://srkr-complaint.vercel.app.evil.example")).Deny?
    ensures CheckOrigin(Some("http://srkr-complaint.vercel.app")).Deny?
    ensures CheckOrigin(None) == Allow
  {
    assert "https://srkr-complaint.vercel.app.evil.example" != AllowedOrigins[0];
    assert "http://srkr-complaint.vercel.app"[4] != AllowedOrigins[0][4];
  }
}
