/** The preview text of src/components/MemoItem.tsx: content longer than the limit is cut to the
    limit and followed by an ellipsis. */
module MemoItem {
  import opened Js

  const DefaultMaxLength: nat := 150

  /** `getPreviewText(content, maxLength)`: never longer than the limit plus three; content that
      fits is shown as it is, and longer content keeps its first `maxLength` characters followed
      by `...`. */
  function PreviewText(content: string, maxLength: nat): (r: string)
    ensures |r| <= maxLength + 3
    ensures |content| <= maxLength ==> r == content
    ensures |content| > maxLength ==>
      |r| == maxLength + 3 && r[..maxLength] == content[..maxLength] && r[maxLength..] == "..."
  {
    if |content| > maxLength then Prefix(content, maxLength) + "..." else content
  }

  /** `getPreviewText(content)`, with the default limit of 150. */
  function DefaultPreview(content: string): (r: string)
    ensures |content| <= 150 ==> r == content
    ensures |content| > 150 ==> |r| == 153 && r[..150] == content[..150] && r[150..] == "..."
  {
    PreviewText(content, 150)
  }

  /** Previewing a preview changes nothing: a cut preview is already the limit plus `...`. */
  lemma PreviewIdempotent(content: string, maxLength: nat)
    ensures PreviewText(PreviewText(content, maxLength), maxLength) == PreviewText(content, maxLength)
  {
    var r := PreviewText(content, maxLength);
    if |content| > maxLength {
      assert r == r[..maxLength] + r[maxLength..];
    }
  }
}
