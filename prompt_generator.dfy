/** The first-generation prompt: a fixed template around the URL, the
    user's instruction and the reduced HTML, with at most one block of
    site-specific tips appended. */
module PromptGenerator {
  import opened Wrappers
  import opened Strings
  import opened Runtime

  /** The extraction guidelines both prompt templates share. */
  const Guidelines: string :=
    "IMPORTANT EXTRACTION GUIDELINES:\n" +
    "- Extract EXACTLY the data fields requested in the user instructions above\n" +
    "- Do NOT add fields that weren't requested unless they're essential\n" +
    "- For price fields, extract the CURRENT selling price with currency symbol\n" +
    "- Format prices as strings with currency symbols (e.g., \"$1,299.99\")\n" +
    "- If there are multiple prices shown, use the actual current selling price, not RRP/MSRP\n" +
    "- Return all data in a clean JSON format"

  /** The closing line both prompt templates share. */
  const Closing: string :=
    "Return ONLY a valid JSON object with the extracted data. No explanations or markdown.\n"

  const Opening: string :=
    "\nYou are a specialized e-commerce data extraction expert. Extract structured product data from this product page.\n\nURL: "

  const BeforeInstruction: string := "\n\nUSER INSTRUCTIONS:\n"
  const BeforeHtml: string := "\n\n" + Guidelines + "\n\nHTML CONTENT:\n"
  const AfterHtml: string := "\n\n" + Closing

  /** The template with the URL, the instruction and the HTML spliced in. */
  function BaseTemplate(url: string, instruction: string, html: string): string
  {
    Opening + url + BeforeInstruction + instruction + BeforeHtml + html + AfterHtml
  }

  const GroceryTips: string :=
    "\n\nSITE-SPECIFIC TIPS (only if relevant to user's request):\n" +
    "- For grocery items, pay attention to price per unit (e.g., $/kg)\n" +
    "- Weight/volume information is often part of the product name\n" +
    "- Look for any special offers or multi-buy deals\n"

  const AmazonTips: string :=
    "\n\nSITE-SPECIFIC TIPS (only if relevant to user's request):\n" +
    "- Check for \"Deal of the Day\" or special pricing\n" +
    "- Amazon often shows multiple prices (list price, deal price)\n" +
    "- Look for Prime-specific pricing if mentioned\n"

  predicate IsGrocery(domain: string)
  {
    Contains(domain, "woolworths.com.au") || Contains(domain, "coles.com.au")
  }

  /** `generateEcommercePrompt(url, instruction, html)`; `Err` where
      `new URL(url)` throws. */
  function EcommercePrompt(rt: Runtime, url: string, instruction: string, html: string): (r: Result<string>)
    ensures r.Err? <==> rt.parseUrl(url).None?
    ensures r.Err? ==> r.message == rt.invalidUrl
  {
    match rt.parseUrl(url)
    case None => Err(rt.invalidUrl)
    case Some(u) => Ok(BaseTemplate(url, instruction, html) + SiteTips(Lower(u.hostname)))
  }

  /** The block appended for the host: grocery tips, Amazon tips, or
      nothing. */
  function SiteTips(domain: string): string
  {
    if IsGrocery(domain) then GroceryTips
    else if Contains(domain, "amazon.com") then AmazonTips
    else ""
  }

  /** The prompt carries the URL, the instruction and the HTML verbatim. */
  lemma PromptContainsInputs(rt: Runtime, url: string, instruction: string, html: string)
    requires EcommercePrompt(rt, url, instruction, html).Ok?
    ensures var p := EcommercePrompt(rt, url, instruction, html).value;
      Contains(p, url) && Contains(p, instruction) && Contains(p, html)
  {
    var tips := SiteTips(Lower(rt.parseUrl(url).value.hostname));
    TemplateContainsInputs(url, instruction, html, tips);
  }

  lemma TemplateContainsInputs(url: string, instruction: string, html: string, tips: string)
    ensures var p := BaseTemplate(url, instruction, html) + tips;
      Contains(p, url) && Contains(p, instruction) && Contains(p, html)
  {
    SplicedInputs(Opening, url, BeforeInstruction, instruction, BeforeHtml, html, AfterHtml + tips);
    assert BaseTemplate(url, instruction, html) + tips ==
      Opening + url + BeforeInstruction + instruction + BeforeHtml + html + (AfterHtml + tips);
  }

  /** Each spliced value is found in the text it is spliced into. */
  lemma SplicedInputs(a: string, x: string, b: string, y: string, c: string, z: string, d: string)
    ensures Contains(a + x + b + y + c + z + d, x)
    ensures Contains(a + x + b + y + c + z + d, y)
    ensures Contains(a + x + b + y + c + z + d, z)
  {
    var s := a + x + b + y + c + z + d;
    assert s == a + x + (b + y + c + z + d);
    ContainsInfix(a, x, b + y + c + z + d);
    assert s == (a + x + b) + y + (c + z + d);
    ContainsInfix(a + x + b, y, c + z + d);
    assert s == (a + x + b + y + c) + z + d;
    ContainsInfix(a + x + b + y + c, z, d);
  }

  /** The template is always a prefix, and what follows it is the grocery
      block exactly for Woolworths and Coles hosts, the Amazon block exactly
      for other amazon.com hosts, and nothing otherwise. */
  lemma PromptSiteBlocks(rt: Runtime, url: string, instruction: string, html: string)
    requires rt.parseUrl(url).Some?
    ensures var p := EcommercePrompt(rt, url, instruction, html).value;
      var base := BaseTemplate(url, instruction, html);
      var domain := Lower(rt.parseUrl(url).value.hostname);
      base <= p &&
      (p[|base|..] == GroceryTips <==> IsGrocery(domain)) &&
      (p[|base|..] == AmazonTips <==> !IsGrocery(domain) && Contains(domain, "amazon.com")) &&
      (p == base <==> !IsGrocery(domain) && !Contains(domain, "amazon.com"))
  {
    var p := EcommercePrompt(rt, url, instruction, html).value;
    var base := BaseTemplate(url, instruction, html);
    var tips := SiteTips(Lower(rt.parseUrl(url).value.hostname));
    assert p == base + tips && p[|base|..] == tips;
    assert |GroceryTips| == 236 && |AmazonTips| == 217;
  }
}
