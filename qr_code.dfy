/** The booking link encoded in the QR code. */
module QrCode {
  import opened Wrappers
  import opened Strings

  const BookingPath: string := "/#booking"
  const DefaultBookingUrl: string := "https://play8.ai/#booking"

  /** `getBookingUrl`, given the component's `url` property and the configured public URL
      (empty strings count as missing): the explicit url; else the public URL, with the
      booking path appended unless it already contains it; else the production booking page. */
  function BookingUrl(url: Option<string>, publicUrl: Option<string>): (r: string)
    ensures url.Some? && url.value != [] ==> r == url.value
    ensures (url.None? || url.value == []) && publicUrl.Some? && publicUrl.value != [] ==>
      r == (if Contains(publicUrl.value, BookingPath) then publicUrl.value else publicUrl.value + BookingPath)
    ensures (url.None? || url.value == []) && (publicUrl.None? || publicUrl.value == []) ==> r == DefaultBookingUrl
  {
    if url.Some? && url.value != [] then url.value
    else if publicUrl.Some? && publicUrl.value != [] then
      if Contains(publicUrl.value, BookingPath) then publicUrl.value else publicUrl.value + BookingPath
    else DefaultBookingUrl
  }

  /** Without an explicit url the link always leads to the booking section. */
  lemma BookingUrlReachesBooking(url: Option<string>, publicUrl: Option<string>)
    requires url.None? || url.value == []
    ensures Contains(BookingUrl(url, publicUrl), BookingPath)
  {
    if publicUrl.Some? && publicUrl.value != [] {
      if !Contains(publicUrl.value, BookingPath) {
        ContainsAt(publicUrl.value, BookingPath, "");
        assert publicUrl.value + BookingPath + "" == publicUrl.value + BookingPath;
      }
    } else {
      ContainsAt("https://play8.ai", BookingPath, "");
      assert "https://play8.ai" + BookingPath + "" == DefaultBookingUrl;
    }
  }

  /** A public URL that already leads to the booking section is used as it is, so building the
      link is idempotent. */
  lemma BookingUrlIdempotent(publicUrl: string)
    ensures BookingUrl(None, Some(BookingUrl(None, Some(publicUrl)))) == BookingUrl(None, Some(publicUrl))
  {
    BookingUrlReachesBooking(None, Some(publicUrl));
  }
}
