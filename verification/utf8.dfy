/** Well-formed UTF-8, as table 3-7 of the Unicode standard gives it. */
module Utf8 {
  import opened Common

  predicate Tail(b: byte) { 0x80 <= b <= 0xBF }

  /** How many octets the sequence at the front has; 0 when there is none. */
  function Lead(s: seq<byte>): (n: nat)
    ensures n <= |s|
  {
    if s == [] then 0
    else if s[0] < 0x80 then 1
    else if |s| < 2 || !Tail(s[1]) then 0
    else if 0xC2 <= s[0] <= 0xDF then 2
    else if |s| < 3 || !Tail(s[2]) then 0
    else if s[0] == 0xE0 then if s[1] >= 0xA0 then 3 else 0
    else if s[0] == 0xED then if s[1] <= 0x9F then 3 else 0
    else if 0xE1 <= s[0] <= 0xEF then 3
    else if |s| < 4 || !Tail(s[3]) then 0
    else if s[0] == 0xF0 then if s[1] >= 0x90 then 4 else 0
    else if s[0] == 0xF4 then if s[1] <= 0x8F then 4 else 0
    else if 0xF1 <= s[0] <= 0xF3 then 4
    else 0
  }

  predicate Valid(s: seq<byte>)
    decreases |s|
  {
    s == [] || (Lead(s) > 0 && Valid(s[Lead(s)..]))
  }
}
