/** The two projections of a composed response: the ids of generated files
    (`extract_files_from_response`) and the code the tool ran
    (`extract_code_blocks`), and the narrative text gathered at the top of
    `generate_markdown_report`. Each is a loop over `response.content`,
    proved against a specification function. */
module Extractor {
  import opened Wrappers
  import opened Content
  import opened Sequences

  /** Iterating the payload's "content" raised `TypeError` (it was `None`, a
      number or a boolean). */
  datatype ExtractError = NotIterable(listing: Value)

  /** `content_item.get("content", [])` of a payload that is a dict whose
      "type" is "code_execution_result"; `None` for any other payload. */
  function ResultListing(payload: Value): Option<Value>
  {
    if payload.Dict? && "type" in payload.fields
       && payload.fields["type"] == Str(CodeExecutionResultType)
    then Some(if "content" in payload.fields then payload.fields["content"] else List([]))
    else None
  }

  /** `for x in v` does not raise: lists, strings and dicts iterate. */
  predicate IsIterable(v: Value)
  {
    v.List? || v.Str? || v.Dict?
  }

  /** What `for x in v` yields that could be a dict: the items of a list.
      A string yields its characters and a dict its keys, all strings, so
      neither can contribute a file id. */
  function Entries(v: Value): seq<Value>
  {
    if v.List? then v.items else []
  }

  /** `file_item["file_id"]` of an entry that is a dict holding "file_id". */
  function EntryFileId(entry: Value): Option<Value>
  {
    if entry.Dict? && "file_id" in entry.fields then Some(entry.fields["file_id"]) else None
  }

  /** The file ids one block contributes, or the error its iteration raises. */
  function BlockFileIds(b: Block): Result<seq<Value>, ExtractError>
  {
    if !b.CodeExecutionToolResult? then Success([])
    else match ResultListing(b.content)
      case None => Success([])
      case Some(listing) =>
        if IsIterable(listing) then Success(Collect(Entries(listing), EntryFileId))
        else Failure(NotIterable(listing))
  }

  /** The first of two results that failed, else both values in order. */
  function Chain(x: Result<seq<Value>, ExtractError>, y: Result<seq<Value>, ExtractError>)
    : Result<seq<Value>, ExtractError>
  {
    if x.Failure? then x else if y.Failure? then y else Success(x.value + y.value)
  }

  /** Specification of `extract_files_from_response`: the blocks' file ids
      in order, or the error of the first block whose iteration raises. */
  function FileIds(blocks: seq<Block>): Result<seq<Value>, ExtractError>
  {
    if blocks == [] then Success([]) else Chain(BlockFileIds(blocks[0]), FileIds(blocks[1..]))
  }

  /** Block `b` holds, as entry `j` of its code-execution result, a dict
      whose "file_id" is `x`. */
  ghost predicate IsFileEntry(b: Block, j: nat, x: Value)
  {
    && b.CodeExecutionToolResult?
    && b.content.Dict?
    && "type" in b.content.fields && b.content.fields["type"] == Str(CodeExecutionResultType)
    && "content" in b.content.fields && b.content.fields["content"].List?
    && j < |b.content.fields["content"].items|
    && var entry := b.content.fields["content"].items[j];
       entry.Dict? && "file_id" in entry.fields && entry.fields["file_id"] == x
  }

  /** Block `b` is a code-execution result whose "content" cannot be iterated. */
  ghost predicate RaisesOn(b: Block)
  {
    && b.CodeExecutionToolResult?
    && b.content.Dict?
    && "type" in b.content.fields && b.content.fields["type"] == Str(CodeExecutionResultType)
    && "content" in b.content.fields
    && (b.content.fields["content"].Null? || b.content.fields["content"].Number?
        || b.content.fields["content"].Boolean?)
  }

  lemma ChainAssociative(x: Result<seq<Value>, ExtractError>, y: Result<seq<Value>, ExtractError>,
                         z: Result<seq<Value>, ExtractError>)
    ensures Chain(Chain(x, y), z) == Chain(x, Chain(y, z))
  {
    if x.Success? && y.Success? && z.Success? {
      assert (x.value + y.value) + z.value == x.value + (y.value + z.value);
    }
  }

  /** `Success([])` is a unit of `Chain` on both sides. */
  lemma ChainUnit(x: Result<seq<Value>, ExtractError>)
    ensures Chain(Success([]), x) == x && Chain(x, Success([])) == x
  {
    if x.Success? {
      assert [] + x.value == x.value && x.value + [] == x.value;
    }
  }

  /** File ids of a split response are those of the first part followed by
      those of the second: extraction keeps appearance order. */
  lemma {:induction false} FileIdsAppend(a: seq<Block>, b: seq<Block>)
    ensures FileIds(a + b) == Chain(FileIds(a), FileIds(b))
  {
    if a == [] {
      assert a + b == b;
      ChainUnit(FileIds(b));
    } else {
      assert (a + b)[0] == a[0];
      assert (a + b)[1..] == a[1..] + b;
      FileIdsAppend(a[1..], b);
      ChainAssociative(BlockFileIds(a[0]), FileIds(a[1..]), FileIds(b));
    }
  }

  /** The one-block step of the extraction loop. */
  lemma FileIdsSnoc(blocks: seq<Block>, b: Block)
    ensures FileIds(blocks + [b]) == Chain(FileIds(blocks), BlockFileIds(b))
  {
    FileIdsAppend(blocks, [b]);
    assert [b][1..] == [];
    ChainUnit(BlockFileIds(b));
  }

  /** A block of any other kind, a payload that is not a dict, a payload of
      another "type", a payload without "content", a "content" that is a
      string or a dict (iterating it yields only strings), and entries that
      are not dicts or lack "file_id" all contribute nothing and raise nothing. */
  lemma {:induction false} BlockFileIdsOfMalformed(b: Block)
    requires || !b.CodeExecutionToolResult?
             || !b.content.Dict?
             || "type" !in b.content.fields
             || b.content.fields["type"] != Str(CodeExecutionResultType)
             || "content" !in b.content.fields
             || b.content.fields["content"].Str?
             || b.content.fields["content"].Dict?
             || (b.content.fields["content"].List?
                 && forall j :: 0 <= j < |b.content.fields["content"].items| ==>
                      EntryFileId(b.content.fields["content"].items[j]).None?)
    ensures BlockFileIds(b) == Success([])
  {
    if b.CodeExecutionToolResult? && ResultListing(b.content).Some? {
      var items := Entries(ResultListing(b.content).value);
      if Collect(items, EntryFileId) != [] {
        var x := Collect(items, EntryFileId)[0];
        CollectMembership(items, EntryFileId, x);
      }
    }
  }

  /** Extraction raises exactly when some code-execution result holds a
      "content" that is `None`, a number or a boolean. */
  lemma {:induction false} FileIdsFailure(blocks: seq<Block>)
    ensures FileIds(blocks).Failure? <==> exists k :: 0 <= k < |blocks| && RaisesOn(blocks[k])
  {
    if blocks != [] {
      FileIdsFailure(blocks[1..]);
      assert BlockFileIds(blocks[0]).Failure? <==> RaisesOn(blocks[0]);
      if exists k :: 0 <= k < |blocks[1..]| && RaisesOn(blocks[1..][k]) {
        var k :| 0 <= k < |blocks[1..]| && RaisesOn(blocks[1..][k]);
        assert RaisesOn(blocks[k + 1]);
      }
      if exists k :: 0 <= k < |blocks| && RaisesOn(blocks[k]) {
        var k :| 0 <= k < |blocks| && RaisesOn(blocks[k]);
        if k > 0 { assert RaisesOn(blocks[1..][k - 1]); }
      }
    }
  }

  /** One block contributes `x` exactly when it holds `x` as a file entry. */
  lemma BlockFileIdsMembership(b: Block, x: Value)
    requires BlockFileIds(b).Success?
    ensures x in BlockFileIds(b).value <==> exists j :: IsFileEntry(b, j, x)
  {
    if b.CodeExecutionToolResult? && ResultListing(b.content).Some? {
      var items := Entries(ResultListing(b.content).value);
      CollectMembership(items, EntryFileId, x);
      if x in BlockFileIds(b).value {
        var j :| 0 <= j < |items| && EntryFileId(items[j]) == Some(x);
        assert IsFileEntry(b, j, x);
      }
    }
  }

  /** When extraction succeeds, its result holds exactly the "file_id" of
      every dict entry of every code-execution result payload. */
  lemma {:induction false} FileIdsMembership(blocks: seq<Block>, x: Value)
    requires FileIds(blocks).Success?
    ensures x in FileIds(blocks).value <==>
            exists k, j :: 0 <= k < |blocks| && IsFileEntry(blocks[k], j, x)
  {
    if blocks != [] {
      FileIdsMembership(blocks[1..], x);
      BlockFileIdsMembership(blocks[0], x);
      if x in FileIds(blocks).value {
        if x in BlockFileIds(blocks[0]).value {
          var j :| IsFileEntry(blocks[0], j, x);
        } else {
          var k, j :| 0 <= k < |blocks[1..]| && IsFileEntry(blocks[1..][k], j, x);
          assert IsFileEntry(blocks[k + 1], j, x);
        }
      }
      if exists k, j :: 0 <= k < |blocks| && IsFileEntry(blocks[k], j, x) {
        var k, j :| 0 <= k < |blocks| && IsFileEntry(blocks[k], j, x);
        if k > 0 { assert IsFileEntry(blocks[1..][k - 1], j, x); }
      }
    }
  }

  /** The inner loop of `extract_files_from_response`: the "file_id" of
      every entry that is a dict holding one, appended in order. */
  method AppendEntryFileIds(fileIds: seq<Value>, entries: seq<Value>) returns (out: seq<Value>)
    ensures out == fileIds + Collect(entries, EntryFileId)
  {
    out := fileIds;
    for j := 0 to |entries|
      invariant out == fileIds + Collect(entries[..j], EntryFileId)
    {
      var fileItem := entries[j];
      assert entries[..j + 1] == entries[..j] + [fileItem];
      CollectSnoc(entries[..j], fileItem, EntryFileId);
      if fileItem.Dict? && "file_id" in fileItem.fields {
        out := out + [fileItem.fields["file_id"]];
      }
    }
    assert entries[..|entries|] == entries;
  }

  /** `extract_files_from_response`: a loop over the blocks around the loop
      over each result's entries. */
  method ExtractFilesFromResponse(response: Response) returns (r: Result<seq<Value>, ExtractError>)
    ensures r == FileIds(response.content)
  {
    var blocks := response.content;
    var fileIds: seq<Value> := [];
    for k := 0 to |blocks|
      invariant FileIds(blocks[..k]) == Success(fileIds)
    {
      var item := blocks[k];
      assert blocks[..k + 1] == blocks[..k] + [item];
      FileIdsSnoc(blocks[..k], item);
      ChainUnit(Success(fileIds));
      if item.CodeExecutionToolResult? {
        var contentItem := item.content;
        if contentItem.Dict? {
          if "type" in contentItem.fields && contentItem.fields["type"] == Str(CodeExecutionResultType) {
            var contentList := if "content" in contentItem.fields then contentItem.fields["content"] else List([]);
            if !IsIterable(contentList) {
              assert blocks == blocks[..k + 1] + blocks[k + 1..];
              FileIdsAppend(blocks[..k + 1], blocks[k + 1..]);
              return Failure(NotIterable(contentList));
            }
            fileIds := AppendEntryFileIds(fileIds, Entries(contentList));
          }
        }
      }
    }
    assert blocks[..|blocks|] == blocks;
    return Success(fileIds);
  }

  /** The code of a block that is a "code_execution" tool use whose `input`
      is a dict holding "code". */
  function BlockCode(b: Block): Option<Value>
  {
    if b.ServerToolUse? && b.name == CodeExecutionTool
       && b.input.Some? && b.input.value.Dict? && "code" in b.input.value.fields
    then Some(b.input.value.fields["code"])
    else None
  }

  /** Specification of `extract_code_blocks`. */
  function CodeBlocks(blocks: seq<Block>): seq<Value>
  {
    Collect(blocks, BlockCode)
  }

  /** A code value is extracted exactly when some "code_execution" tool use
      has it as the "code" of its dict input; no other block contributes. */
  lemma CodeBlocksMembership(blocks: seq<Block>, code: Value)
    ensures code in CodeBlocks(blocks) <==>
            exists k :: 0 <= k < |blocks| && blocks[k].ServerToolUse?
              && blocks[k].name == CodeExecutionTool && blocks[k].input.Some?
              && blocks[k].input.value.Dict? && "code" in blocks[k].input.value.fields
              && blocks[k].input.value.fields["code"] == code
  {
    CollectMembership(blocks, BlockCode, code);
  }

  /** Code blocks of a split response come in the order of the parts. */
  lemma CodeBlocksAppend(a: seq<Block>, b: seq<Block>)
    ensures CodeBlocks(a + b) == CodeBlocks(a) + CodeBlocks(b)
  {
    CollectAppend(a, b, BlockCode);
  }

  /** `extract_code_blocks`: a loop that appends each tool use's code. */
  method ExtractCodeBlocks(response: Response) returns (codeBlocks: seq<Value>)
    ensures codeBlocks == CodeBlocks(response.content)
  {
    var blocks := response.content;
    codeBlocks := [];
    for k := 0 to |blocks|
      invariant codeBlocks == CodeBlocks(blocks[..k])
    {
      var item := blocks[k];
      assert blocks[..k + 1] == blocks[..k] + [item];
      CollectSnoc(blocks[..k], item, BlockCode);
      if item.ServerToolUse? && item.name == CodeExecutionTool {
        if item.input.Some? && item.input.value.Dict? && "code" in item.input.value.fields {
          codeBlocks := codeBlocks + [item.input.value.fields["code"]];
        }
      }
    }
    assert blocks[..|blocks|] == blocks;
  }

  /** The text of a "text" block. */
  function BlockText(b: Block): Option<string>
  {
    if b.TextBlock? then Some(b.text) else None
  }

  /** The narrative text of a response, in appearance order. */
  function TextContent(blocks: seq<Block>): seq<string>
  {
    Collect(blocks, BlockText)
  }

  /** A text is gathered exactly when some "text" block carries it. */
  lemma TextContentMembership(blocks: seq<Block>, text: string)
    ensures text in TextContent(blocks) <==>
            exists k :: 0 <= k < |blocks| && blocks[k] == TextBlock(text)
  {
    CollectMembership(blocks, BlockText, text);
  }

  /** Texts of a split response come in the order of the parts. */
  lemma TextContentAppend(a: seq<Block>, b: seq<Block>)
    ensures TextContent(a + b) == TextContent(a) + TextContent(b)
  {
    CollectAppend(a, b, BlockText);
  }

  /** The text-gathering loop of `generate_markdown_report`. */
  method GatherText(response: Response) returns (textContent: seq<string>)
    ensures textContent == TextContent(response.content)
  {
    var blocks := response.content;
    textContent := [];
    for k := 0 to |blocks|
      invariant textContent == TextContent(blocks[..k])
    {
      var item := blocks[k];
      assert blocks[..k + 1] == blocks[..k] + [item];
      CollectSnoc(blocks[..k], item, BlockText);
      if item.TextBlock? {
        textContent := textContent + [item.text];
      }
    }
    assert blocks[..|blocks|] == blocks;
  }

  /** An empty response yields no file ids, no code and no text. */
  lemma EmptyResponse()
    ensures FileIds([]) == Success([]) && CodeBlocks([]) == [] && TextContent([]) == []
  {
  }
}
