/**
 * The pure helpers of the content generator: the request prompt, the system prompt, the
 * fallback title and the label tables. Each one chooses between Thai and English by testing
 * whether the requested language is exactly "th".
 */
module Prompts {
  import opened Schema

  /** `getLengthDescription`: three named lengths, and a fixed text for anything else. */
  function GetLengthDescription(length: string): (r: string)
    ensures r == "Short (around 50-100 words)" <==> length == "short"
    ensures r == "Medium (around 100-200 words)" <==> length == "medium"
    ensures r == "Long (around 300-500 words)" <==> length == "long"
    ensures r == "Medium length" <==> length != "short" && length != "medium" && length != "long"
  {
    if length == "short" then "Short (around 50-100 words)"
    else if length == "medium" then "Medium (around 100-200 words)"
    else if length == "long" then "Long (around 300-500 words)"
    else "Medium length"
  }

  /** The Thai labels of the five content types. */
  const ThaiContentTypes: map<string, string> := map[
    "social" := "โพสต์โซเชียลมีเดีย",
    "ad" := "โฆษณา",
    "email" := "อีเมลการตลาด",
    "blog" := "บทความบล็อก",
    "promo" := "โปรโมชัน"]

  /** `getThaiContentType`: the Thai label of a known type; any other input comes back unchanged. */
  function GetThaiContentType(contentType: string): (r: string)
    ensures contentType in ThaiContentTypes ==> r == ThaiContentTypes[contentType]
    ensures r == contentType <==> contentType !in ThaiContentTypes
  {
    if contentType in ThaiContentTypes then ThaiContentTypes[contentType] else contentType
  }

  const ThaiLabel: string := "ไทย"
  const ThaiTitleEnding: string := " (" + ThaiLabel + ")"

  /**
   * `getDefaultTitle`: "<type> - <business> (<language>)". The language is written "ไทย"
   * exactly when it is "th", and only then is the type translated.
   */
  function GetDefaultTitle(p: ContentGeneration): (r: string)
    ensures |r| >= |ThaiTitleEnding| && (r[|r| - |ThaiTitleEnding|..] == ThaiTitleEnding <==> p.language == "th")
    ensures p.language == "th" ==> r == GetThaiContentType(p.contentType) + " - " + p.businessType + ThaiTitleEnding
    ensures p.language != "th" ==> r == p.contentType + " - " + p.businessType + " (English)"
  {
    var languageText := if p.language == "th" then ThaiLabel else "English";
    var contentTypeText := if p.language == "th" then GetThaiContentType(p.contentType) else p.contentType;
    var r := contentTypeText + " - " + p.businessType + " (" + languageText + ")";
    assert p.language != "th" ==> r[|r| - |ThaiTitleEnding|..][|ThaiTitleEnding| - 3] == 's';
    r
  }

  const ThaiSystemPrompt: string :=
    "You are an expert Thai marketing content creator for small to medium businesses. \nCreate compelling, culturally relevant Thai language content that sounds natural and native. \nUse appropriate Thai idioms, expressions, and tone. \nFormat your responses as JSON objects with \"title\" and \"content\" fields.\nFor social media posts, use appropriate emojis and hashtags."

  const EnglishSystemPrompt: string :=
    "You are an expert English marketing content creator for small to medium businesses in Thailand.\nCreate compelling, culturally relevant English language content for the Thai market.\nFormat your responses as JSON objects with \"title\" and \"content\" fields.\nFor social media posts, use appropriate emojis and hashtags."

  /** `getSystemPrompt`: the Thai instructions exactly when the language is "th". */
  function GetSystemPrompt(language: string): (r: string)
    ensures r == ThaiSystemPrompt <==> language == "th"
    ensures r == EnglishSystemPrompt <==> language != "th"
  {
    assert |ThaiSystemPrompt| != |EnglishSystemPrompt|;
    if language == "th" then ThaiSystemPrompt else EnglishSystemPrompt
  }

  /** The language named in the request prompt: "Thai" exactly when the language is "th". */
  function LanguageName(language: string): (r: string)
    ensures r == "Thai" <==> language == "th"
    ensures r == "English" <==> language != "th"
  {
    if language == "th" then "Thai" else "English"
  }

  const NoDetails: string := "No specific details provided"

  /** `details || "No specific details provided"`: only the empty string is replaced. */
  function DetailsOrDefault(details: string): (r: string)
    ensures details != "" ==> r == details
    ensures details == "" ==> r == NoDetails
  {
    if details == "" then NoDetails else details
  }

  const PromptOpening: string := "\nPlease generate "
  const PromptClosing: string := "\n\nPlease format your response as a JSON object with \"title\" and \"content\" fields.\n  "

  /**
   * `createPrompt`: the request text. It opens by asking for content in the named language and
   * closes with the details (or the default) and the JSON format request.
   */
  function CreatePrompt(p: ContentGeneration): (r: string)
    ensures |r| >= |PromptOpening| + |LanguageName(p.language)|
    ensures r[..|PromptOpening|] == PromptOpening
    ensures r[|PromptOpening|..|PromptOpening| + |LanguageName(p.language)|] == LanguageName(p.language)
    ensures var ending := "\n\nAdditional Details: " + DetailsOrDefault(p.details) + PromptClosing;
      |r| >= |ending| && r[|r| - |ending|..] == ending
  {
    var middle := " content for a " + p.businessType + " business with the following specifications:\n\nContent Type: " + p.contentType + "\nBusiness Type: " +
                  p.businessType + "\nTone: " + p.tone + "\nLength: " + GetLengthDescription(p.length);
    var ending := "\n\nAdditional Details: " + DetailsOrDefault(p.details) + PromptClosing;
    var r := PromptOpening + LanguageName(p.language) + middle + ending;
    assert r == (PromptOpening + LanguageName(p.language)) + (middle + ending);
    r
  }
}
