/**
 * `shortenAddress`: an address cut down to its first and last few
 * characters around an ellipsis, with the index rules of JavaScript's
 * `String.prototype.slice`.
 */
module Bouncer {
  import opened JsBuiltins

  /** `${address.slice(0, chars)}...${address.slice(-chars)}`, four characters a side by default. */
  function ShortenAddress(address: string, chars: int := 4): (r: string)
    // the usual case: chars characters from each end, around the ellipsis
    ensures 1 <= chars <= |address| ==>
      && |r| == 2 * chars + 3
      && r == address[..chars] + "..." + address[|address| - chars..]
    // `slice(-0)` is `slice(0)`: the whole address follows the ellipsis
    ensures chars == 0 ==> r == "..." + address
    // more characters than the address has: the address appears twice
    ensures chars >= |address| ==> r == address + "..." + address
    // a negative count drops characters from the end of the prefix and the start of the suffix
    ensures chars < 0 ==>
      r == address[..if |address| + chars < 0 then 0 else |address| + chars] + "..." +
           address[if -chars > |address| then |address| else -chars..]
  {
    Slice(address, 0, chars) + "..." + SliceFrom(address, -chars)
  }

  /** With the default count of four, an address of four or more characters shortens to eleven. */
  lemma DefaultShortening(address: string)
    requires |address| >= 4
    ensures ShortenAddress(address) == ShortenAddress(address, 4)
    ensures |ShortenAddress(address)| == 11
    ensures ShortenAddress(address) == address[..4] + "..." + address[|address| - 4..]
  {
  }
}
