/**
 * The one computed value of the product grid: the WhatsApp link a card's
 * "Enquire Now" button opens. `encode` stands for `encodeURIComponent`,
 * whose definition is not part of this model.
 */
module Catalog {

  const WhatsAppBase: string := "https://wa.me/"
  const TextParameter: string := "?text="
  const EnquiryGreeting: string := "Hey, I want to buy "

  /** The enquiry link for a product: the contact number, then the encoded greeting naming the product. */
  function EnquireLink(phone: string, productName: string, encode: string -> string): (link: string)
    ensures |link| == |WhatsAppBase| + |phone| + |TextParameter| + |encode(EnquiryGreeting + productName)|
    ensures link[..|WhatsAppBase|] == WhatsAppBase
    ensures link[|WhatsAppBase|..|WhatsAppBase| + |phone|] == phone
    ensures link[|WhatsAppBase| + |phone|..|WhatsAppBase| + |phone| + |TextParameter|] == TextParameter
    ensures link[|WhatsAppBase| + |phone| + |TextParameter|..] == encode(EnquiryGreeting + productName)
  {
    WhatsAppBase + phone + TextParameter + encode(EnquiryGreeting + productName)
  }
}
