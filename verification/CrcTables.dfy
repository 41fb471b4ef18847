/** The five 256-entry tables of crc32c.cc, a row of sixteen entries at a time. */
module CrcTables {

  function ByteRow0(l: bv8): bv32 {
    if l == 0 then 0x00000000 else if l == 1 then 0xf26b8303 else if l == 2 then 0xe13b70f7 else if l == 3 then 0x1350f3f4 else
    if l == 4 then 0xc79a971f else if l == 5 then 0x35f1141c else if l == 6 then 0x26a1e7e8 else if l == 7 then 0xd4ca64eb else
    if l == 8 then 0x8ad958cf else if l == 9 then 0x78b2dbcc else if l == 10 then 0x6be22838 else if l == 11 then 0x9989ab3b else
    if l == 12 then 0x4d43cfd0 else if l == 13 then 0xbf284cd3 else if l == 14 then 0xac78bf27 else 0x5e133c24
  }

  function ByteRow1(l: bv8): bv32 {
    if l == 0 then 0x105ec76f else if l == 1 then 0xe235446c else if l == 2 then 0xf165b798 else if l == 3 then 0x030e349b else
    if l == 4 then 0xd7c45070 else if l == 5 then 0x25afd373 else if l == 6 then 0x36ff2087 else if l == 7 then 0xc494a384 else
    if l == 8 then 0x9a879fa0 else if l == 9 then 0x68ec1ca3 else if l == 10 then 0x7bbcef57 else if l == 11 then 0x89d76c54 else
    if l == 12 then 0x5d1d08bf else if l == 13 then 0xaf768bbc else if l == 14 then 0xbc267848 else 0x4e4dfb4b
  }

  function ByteRow2(l: bv8): bv32 {
    if l == 0 then 0x20bd8ede else if l == 1 then 0xd2d60ddd else if l == 2 then 0xc186fe29 else if l == 3 then 0x33ed7d2a else
    if l == 4 then 0xe72719c1 else if l == 5 then 0x154c9ac2 else if l == 6 then 0x061c6936 else if l == 7 then 0xf477ea35 else
    if l == 8 then 0xaa64d611 else if l == 9 then 0x580f5512 else if l == 10 then 0x4b5fa6e6 else if l == 11 then 0xb93425e5 else
    if l == 12 then 0x6dfe410e else if l == 13 then 0x9f95c20d else if l == 14 then 0x8cc531f9 else 0x7eaeb2fa
  }

  function ByteRow3(l: bv8): bv32 {
    if l == 0 then 0x30e349b1 else if l == 1 then 0xc288cab2 else if l == 2 then 0xd1d83946 else if l == 3 then 0x23b3ba45 else
    if l == 4 then 0xf779deae else if l == 5 then 0x05125dad else if l == 6 then 0x1642ae59 else if l == 7 then 0xe4292d5a else
    if l == 8 then 0xba3a117e else if l == 9 then 0x4851927d else if l == 10 then 0x5b016189 else if l == 11 then 0xa96ae28a else
    if l == 12 then 0x7da08661 else if l == 13 then 0x8fcb0562 else if l == 14 then 0x9c9bf696 else 0x6ef07595
  }

  function ByteRow4(l: bv8): bv32 {
    if l == 0 then 0x417b1dbc else if l == 1 then 0xb3109ebf else if l == 2 then 0xa0406d4b else if l == 3 then 0x522bee48 else
    if l == 4 then 0x86e18aa3 else if l == 5 then 0x748a09a0 else if l == 6 then 0x67dafa54 else if l == 7 then 0x95b17957 else
    if l == 8 then 0xcba24573 else if l == 9 then 0x39c9c670 else if l == 10 then 0x2a993584 else if l == 11 then 0xd8f2b687 else
    if l == 12 then 0x0c38d26c else if l == 13 then 0xfe53516f else if l == 14 then 0xed03a29b else 0x1f682198
  }

  function ByteRow5(l: bv8): bv32 {
    if l == 0 then 0x5125dad3 else if l == 1 then 0xa34e59d0 else if l == 2 then 0xb01eaa24 else if l == 3 then 0x42752927 else
    if l == 4 then 0x96bf4dcc else if l == 5 then 0x64d4cecf else if l == 6 then 0x77843d3b else if l == 7 then 0x85efbe38 else
    if l == 8 then 0xdbfc821c else if l == 9 then 0x2997011f else if l == 10 then 0x3ac7f2eb else if l == 11 then 0xc8ac71e8 else
    if l == 12 then 0x1c661503 else if l == 13 then 0xee0d9600 else if l == 14 then 0xfd5d65f4 else 0x0f36e6f7
  }

  function ByteRow6(l: bv8): bv32 {
    if l == 0 then 0x61c69362 else if l == 1 then 0x93ad1061 else if l == 2 then 0x80fde395 else if l == 3 then 0x72966096 else
    if l == 4 then 0xa65c047d else if l == 5 then 0x5437877e else if l == 6 then 0x4767748a else if l == 7 then 0xb50cf789 else
    if l == 8 then 0xeb1fcbad else if l == 9 then 0x197448ae else if l == 10 then 0x0a24bb5a else if l == 11 then 0xf84f3859 else
    if l == 12 then 0x2c855cb2 else if l == 13 then 0xdeeedfb1 else if l == 14 then 0xcdbe2c45 else 0x3fd5af46
  }

  function ByteRow7(l: bv8): bv32 {
    if l == 0 then 0x7198540d else if l == 1 then 0x83f3d70e else if l == 2 then 0x90a324fa else if l == 3 then 0x62c8a7f9 else
    if l == 4 then 0xb602c312 else if l == 5 then 0x44694011 else if l == 6 then 0x5739b3e5 else if l == 7 then 0xa55230e6 else
    if l == 8 then 0xfb410cc2 else if l == 9 then 0x092a8fc1 else if l == 10 then 0x1a7a7c35 else if l == 11 then 0xe811ff36 else
    if l == 12 then 0x3cdb9bdd else if l == 13 then 0xceb018de else if l == 14 then 0xdde0eb2a else 0x2f8b6829
  }

  function ByteRow8(l: bv8): bv32 {
    if l == 0 then 0x82f63b78 else if l == 1 then 0x709db87b else if l == 2 then 0x63cd4b8f else if l == 3 then 0x91a6c88c else
    if l == 4 then 0x456cac67 else if l == 5 then 0xb7072f64 else if l == 6 then 0xa457dc90 else if l == 7 then 0x563c5f93 else
    if l == 8 then 0x082f63b7 else if l == 9 then 0xfa44e0b4 else if l == 10 then 0xe9141340 else if l == 11 then 0x1b7f9043 else
    if l == 12 then 0xcfb5f4a8 else if l == 13 then 0x3dde77ab else if l == 14 then 0x2e8e845f else 0xdce5075c
  }

  function ByteRow9(l: bv8): bv32 {
    if l == 0 then 0x92a8fc17 else if l == 1 then 0x60c37f14 else if l == 2 then 0x73938ce0 else if l == 3 then 0x81f80fe3 else
    if l == 4 then 0x55326b08 else if l == 5 then 0xa759e80b else if l == 6 then 0xb4091bff else if l == 7 then 0x466298fc else
    if l == 8 then 0x1871a4d8 else if l == 9 then 0xea1a27db else if l == 10 then 0xf94ad42f else if l == 11 then 0x0b21572c else
    if l == 12 then 0xdfeb33c7 else if l == 13 then 0x2d80b0c4 else if l == 14 then 0x3ed04330 else 0xccbbc033
  }

  function ByteRowA(l: bv8): bv32 {
    if l == 0 then 0xa24bb5a6 else if l == 1 then 0x502036a5 else if l == 2 then 0x4370c551 else if l == 3 then 0xb11b4652 else
    if l == 4 then 0x65d122b9 else if l == 5 then 0x97baa1ba else if l == 6 then 0x84ea524e else if l == 7 then 0x7681d14d else
    if l == 8 then 0x2892ed69 else if l == 9 then 0xdaf96e6a else if l == 10 then 0xc9a99d9e else if l == 11 then 0x3bc21e9d else
    if l == 12 then 0xef087a76 else if l == 13 then 0x1d63f975 else if l == 14 then 0x0e330a81 else 0xfc588982
  }

  function ByteRowB(l: bv8): bv32 {
    if l == 0 then 0xb21572c9 else if l == 1 then 0x407ef1ca else if l == 2 then 0x532e023e else if l == 3 then 0xa145813d else
    if l == 4 then 0x758fe5d6 else if l == 5 then 0x87e466d5 else if l == 6 then 0x94b49521 else if l == 7 then 0x66df1622 else
    if l == 8 then 0x38cc2a06 else if l == 9 then 0xcaa7a905 else if l == 10 then 0xd9f75af1 else if l == 11 then 0x2b9cd9f2 else
    if l == 12 then 0xff56bd19 else if l == 13 then 0x0d3d3e1a else if l == 14 then 0x1e6dcdee else 0xec064eed
  }

  function ByteRowC(l: bv8): bv32 {
    if l == 0 then 0xc38d26c4 else if l == 1 then 0x31e6a5c7 else if l == 2 then 0x22b65633 else if l == 3 then 0xd0ddd530 else
    if l == 4 then 0x0417b1db else if l == 5 then 0xf67c32d8 else if l == 6 then 0xe52cc12c else if l == 7 then 0x1747422f else
    if l == 8 then 0x49547e0b else if l == 9 then 0xbb3ffd08 else if l == 10 then 0xa86f0efc else if l == 11 then 0x5a048dff else
    if l == 12 then 0x8ecee914 else if l == 13 then 0x7ca56a17 else if l == 14 then 0x6ff599e3 else 0x9d9e1ae0
  }

  function ByteRowD(l: bv8): bv32 {
    if l == 0 then 0xd3d3e1ab else if l == 1 then 0x21b862a8 else if l == 2 then 0x32e8915c else if l == 3 then 0xc083125f else
    if l == 4 then 0x144976b4 else if l == 5 then 0xe622f5b7 else if l == 6 then 0xf5720643 else if l == 7 then 0x07198540 else
    if l == 8 then 0x590ab964 else if l == 9 then 0xab613a67 else if l == 10 then 0xb831c993 else if l == 11 then 0x4a5a4a90 else
    if l == 12 then 0x9e902e7b else if l == 13 then 0x6cfbad78 else if l == 14 then 0x7fab5e8c else 0x8dc0dd8f
  }

  function ByteRowE(l: bv8): bv32 {
    if l == 0 then 0xe330a81a else if l == 1 then 0x115b2b19 else if l == 2 then 0x020bd8ed else if l == 3 then 0xf0605bee else
    if l == 4 then 0x24aa3f05 else if l == 5 then 0xd6c1bc06 else if l == 6 then 0xc5914ff2 else if l == 7 then 0x37faccf1 else
    if l == 8 then 0x69e9f0d5 else if l == 9 then 0x9b8273d6 else if l == 10 then 0x88d28022 else if l == 11 then 0x7ab90321 else
    if l == 12 then 0xae7367ca else if l == 13 then 0x5c18e4c9 else if l == 14 then 0x4f48173d else 0xbd23943e
  }

  function ByteRowF(l: bv8): bv32 {
    if l == 0 then 0xf36e6f75 else if l == 1 then 0x0105ec76 else if l == 2 then 0x12551f82 else if l == 3 then 0xe03e9c81 else
    if l == 4 then 0x34f4f86a else if l == 5 then 0xc69f7b69 else if l == 6 then 0xd5cf889d else if l == 7 then 0x27a40b9e else
    if l == 8 then 0x79b737ba else if l == 9 then 0x8bdcb4b9 else if l == 10 then 0x988c474d else if l == 11 then 0x6ae7c44e else
    if l == 12 then 0xbe2da0a5 else if l == 13 then 0x4c4623a6 else if l == 14 then 0x5f16d052 else 0xad7d5351
  }

  function ByteTable(c: bv8): bv32 {
    var l, h := c & 15, c >> 4;
    if h == 0 then ByteRow0(l) else
    if h == 1 then ByteRow1(l) else
    if h == 2 then ByteRow2(l) else
    if h == 3 then ByteRow3(l) else
    if h == 4 then ByteRow4(l) else
    if h == 5 then ByteRow5(l) else
    if h == 6 then ByteRow6(l) else
    if h == 7 then ByteRow7(l) else
    if h == 8 then ByteRow8(l) else
    if h == 9 then ByteRow9(l) else
    if h == 10 then ByteRowA(l) else
    if h == 11 then ByteRowB(l) else
    if h == 12 then ByteRowC(l) else
    if h == 13 then ByteRowD(l) else
    if h == 14 then ByteRowE(l) else
    ByteRowF(l)
  }

  function Stride0Row0(l: bv8): bv32 {
    if l == 0 then 0x00000000 else if l == 1 then 0x30d23865 else if l == 2 then 0x61a470ca else if l == 3 then 0x517648af else
    if l == 4 then 0xc348e194 else if l == 5 then 0xf39ad9f1 else if l == 6 then 0xa2ec915e else if l == 7 then 0x923ea93b else
    if l == 8 then 0x837db5d9 else if l == 9 then 0xb3af8dbc else if l == 10 then 0xe2d9c513 else if l == 11 then 0xd20bfd76 else
    if l == 12 then 0x4035544d else if l == 13 then 0x70e76c28 else if l == 14 then 0x21912487 else 0x11431ce2
  }

  function Stride0Row1(l: bv8): bv32 {
    if l == 0 then 0x03171d43 else if l == 1 then 0x33c52526 else if l == 2 then 0x62b36d89 else if l == 3 then 0x526155ec else
    if l == 4 then 0xc05ffcd7 else if l == 5 then 0xf08dc4b2 else if l == 6 then 0xa1fb8c1d else if l == 7 then 0x9129b478 else
    if l == 8 then 0x806aa89a else if l == 9 then 0xb0b890ff else if l == 10 then 0xe1ced850 else if l == 11 then 0xd11ce035 else
    if l == 12 then 0x4322490e else if l == 13 then 0x73f0716b else if l == 14 then 0x228639c4 else 0x125401a1
  }

  function Stride0Row2(l: bv8): bv32 {
    if l == 0 then 0x062e3a86 else if l == 1 then 0x36fc02e3 else if l == 2 then 0x678a4a4c else if l == 3 then 0x57587229 else
    if l == 4 then 0xc566db12 else if l == 5 then 0xf5b4e377 else if l == 6 then 0xa4c2abd8 else if l == 7 then 0x941093bd else
    if l == 8 then 0x85538f5f else if l == 9 then 0xb581b73a else if l == 10 then 0xe4f7ff95 else if l == 11 then 0xd425c7f0 else
    if l == 12 then 0x461b6ecb else if l == 13 then 0x76c956ae else if l == 14 then 0x27bf1e01 else 0x176d2664
  }

  function Stride0Row3(l: bv8): bv32 {
    if l == 0 then 0x053927c5 else if l == 1 then 0x35eb1fa0 else if l == 2 then 0x649d570f else if l == 3 then 0x544f6f6a else
    if l == 4 then 0xc671c651 else if l == 5 then 0xf6a3fe34 else if l == 6 then 0xa7d5b69b else if l == 7 then 0x97078efe else
    if l == 8 then 0x8644921c else if l == 9 then 0xb696aa79 else if l == 10 then 0xe7e0e2d6 else if l == 11 then 0xd732dab3 else
    if l == 12 then 0x450c7388 else if l == 13 then 0x75de4bed else if l == 14 then 0x24a80342 else 0x147a3b27
  }

  function Stride0Row4(l: bv8): bv32 {
    if l == 0 then 0x0c5c750c else if l == 1 then 0x3c8e4d69 else if l == 2 then 0x6df805c6 else if l == 3 then 0x5d2a3da3 else
    if l == 4 then 0xcf149498 else if l == 5 then 0xffc6acfd else if l == 6 then 0xaeb0e452 else if l == 7 then 0x9e62dc37 else
    if l == 8 then 0x8f21c0d5 else if l == 9 then 0xbff3f8b0 else if l == 10 then 0xee85b01f else if l == 11 then 0xde57887a else
    if l == 12 then 0x4c692141 else if l == 13 then 0x7cbb1924 else if l == 14 then 0x2dcd518b else 0x1d1f69ee
  }

  function Stride0Row5(l: bv8): bv32 {
    if l == 0 then 0x0f4b684f else if l == 1 then 0x3f99502a else if l == 2 then 0x6eef1885 else if l == 3 then 0x5e3d20e0 else
    if l == 4 then 0xcc0389db else if l == 5 then 0xfcd1b1be else if l == 6 then 0xada7f911 else if l == 7 then 0x9d75c174 else
    if l == 8 then 0x8c36dd96 else if l == 9 then 0xbce4e5f3 else if l == 10 then 0xed92ad5c else if l == 11 then 0xdd409539 else
    if l == 12 then 0x4f7e3c02 else if l == 13 then 0x7fac0467 else if l == 14 then 0x2eda4cc8 else 0x1e0874ad
  }

  function Stride0Row6(l: bv8): bv32 {
    if l == 0 then 0x0a724f8a else if l == 1 then 0x3aa077ef else if l == 2 then 0x6bd63f40 else if l == 3 then 0x5b040725 else
    if l == 4 then 0xc93aae1e else if l == 5 then 0xf9e8967b else if l == 6 then 0xa89eded4 else if l == 7 then 0x984ce6b1 else
    if l == 8 then 0x890ffa53 else if l == 9 then 0xb9ddc236 else if l == 10 then 0xe8ab8a99 else if l == 11 then 0xd879b2fc else
    if l == 12 then 0x4a471bc7 else if l == 13 then 0x7a9523a2 else if l == 14 then 0x2be36b0d else 0x1b315368
  }

  function Stride0Row7(l: bv8): bv32 {
    if l == 0 then 0x096552c9 else if l == 1 then 0x39b76aac else if l == 2 then 0x68c12203 else if l == 3 then 0x58131a66 else
    if l == 4 then 0xca2db35d else if l == 5 then 0xfaff8b38 else if l == 6 then 0xab89c397 else if l == 7 then 0x9b5bfbf2 else
    if l == 8 then 0x8a18e710 else if l == 9 then 0xbacadf75 else if l == 10 then 0xebbc97da else if l == 11 then 0xdb6eafbf else
    if l == 12 then 0x49500684 else if l == 13 then 0x79823ee1 else if l == 14 then 0x28f4764e else 0x18264e2b
  }

  function Stride0Row8(l: bv8): bv32 {
    if l == 0 then 0x18b8ea18 else if l == 1 then 0x286ad27d else if l == 2 then 0x791c9ad2 else if l == 3 then 0x49cea2b7 else
    if l == 4 then 0xdbf00b8c else if l == 5 then 0xeb2233e9 else if l == 6 then 0xba547b46 else if l == 7 then 0x8a864323 else
    if l == 8 then 0x9bc55fc1 else if l == 9 then 0xab1767a4 else if l == 10 then 0xfa612f0b else if l == 11 then 0xcab3176e else
    if l == 12 then 0x588dbe55 else if l == 13 then 0x685f8630 else if l == 14 then 0x3929ce9f else 0x09fbf6fa
  }

  function Stride0Row9(l: bv8): bv32 {
    if l == 0 then 0x1baff75b else if l == 1 then 0x2b7dcf3e else if l == 2 then 0x7a0b8791 else if l == 3 then 0x4ad9bff4 else
    if l == 4 then 0xd8e716cf else if l == 5 then 0xe8352eaa else if l == 6 then 0xb9436605 else if l == 7 then 0x89915e60 else
    if l == 8 then 0x98d24282 else if l == 9 then 0xa8007ae7 else if l == 10 then 0xf9763248 else if l == 11 then 0xc9a40a2d else
    if l == 12 then 0x5b9aa316 else if l == 13 then 0x6b489b73 else if l == 14 then 0x3a3ed3dc else 0x0aecebb9
  }

  function Stride0RowA(l: bv8): bv32 {
    if l == 0 then 0x1e96d09e else if l == 1 then 0x2e44e8fb else if l == 2 then 0x7f32a054 else if l == 3 then 0x4fe09831 else
    if l == 4 then 0xddde310a else if l == 5 then 0xed0c096f else if l == 6 then 0xbc7a41c0 else if l == 7 then 0x8ca879a5 else
    if l == 8 then 0x9deb6547 else if l == 9 then 0xad395d22 else if l == 10 then 0xfc4f158d else if l == 11 then 0xcc9d2de8 else
    if l == 12 then 0x5ea384d3 else if l == 13 then 0x6e71bcb6 else if l == 14 then 0x3f07f419 else 0x0fd5cc7c
  }

  function Stride0RowB(l: bv8): bv32 {
    if l == 0 then 0x1d81cddd else if l == 1 then 0x2d53f5b8 else if l == 2 then 0x7c25bd17 else if l == 3 then 0x4cf78572 else
    if l == 4 then 0xdec92c49 else if l == 5 then 0xee1b142c else if l == 6 then 0xbf6d5c83 else if l == 7 then 0x8fbf64e6 else
    if l == 8 then 0x9efc7804 else if l == 9 then 0xae2e4061 else if l == 10 then 0xff5808ce else if l == 11 then 0xcf8a30ab else
    if l == 12 then 0x5db49990 else if l == 13 then 0x6d66a1f5 else if l == 14 then 0x3c10e95a else 0x0cc2d13f
  }

  function Stride0RowC(l: bv8): bv32 {
    if l == 0 then 0x14e49f14 else if l == 1 then 0x2436a771 else if l == 2 then 0x7540efde else if l == 3 then 0x4592d7bb else
    if l == 4 then 0xd7ac7e80 else if l == 5 then 0xe77e46e5 else if l == 6 then 0xb6080e4a else if l == 7 then 0x86da362f else
    if l == 8 then 0x97992acd else if l == 9 then 0xa74b12a8 else if l == 10 then 0xf63d5a07 else if l == 11 then 0xc6ef6262 else
    if l == 12 then 0x54d1cb59 else if l == 13 then 0x6403f33c else if l == 14 then 0x3575bb93 else 0x05a783f6
  }

  function Stride0RowD(l: bv8): bv32 {
    if l == 0 then 0x17f38257 else if l == 1 then 0x2721ba32 else if l == 2 then 0x7657f29d else if l == 3 then 0x4685caf8 else
    if l == 4 then 0xd4bb63c3 else if l == 5 then 0xe4695ba6 else if l == 6 then 0xb51f1309 else if l == 7 then 0x85cd2b6c else
    if l == 8 then 0x948e378e else if l == 9 then 0xa45c0feb else if l == 10 then 0xf52a4744 else if l == 11 then 0xc5f87f21 else
    if l == 12 then 0x57c6d61a else if l == 13 then 0x6714ee7f else if l == 14 then 0x3662a6d0 else 0x06b09eb5
  }

  function Stride0RowE(l: bv8): bv32 {
    if l == 0 then 0x12caa592 else if l == 1 then 0x22189df7 else if l == 2 then 0x736ed558 else if l == 3 then 0x43bced3d else
    if l == 4 then 0xd1824406 else if l == 5 then 0xe1507c63 else if l == 6 then 0xb02634cc else if l == 7 then 0x80f40ca9 else
    if l == 8 then 0x91b7104b else if l == 9 then 0xa165282e else if l == 10 then 0xf0136081 else if l == 11 then 0xc0c158e4 else
    if l == 12 then 0x52fff1df else if l == 13 then 0x622dc9ba else if l == 14 then 0x335b8115 else 0x0389b970
  }

  function Stride0RowF(l: bv8): bv32 {
    if l == 0 then 0x11ddb8d1 else if l == 1 then 0x210f80b4 else if l == 2 then 0x7079c81b else if l == 3 then 0x40abf07e else
    if l == 4 then 0xd2955945 else if l == 5 then 0xe2476120 else if l == 6 then 0xb331298f else if l == 7 then 0x83e311ea else
    if l == 8 then 0x92a00d08 else if l == 9 then 0xa272356d else if l == 10 then 0xf3047dc2 else if l == 11 then 0xc3d645a7 else
    if l == 12 then 0x51e8ec9c else if l == 13 then 0x613ad4f9 else if l == 14 then 0x304c9c56 else 0x009ea433
  }

  function Stride0Table(c: bv8): bv32 {
    var l, h := c & 15, c >> 4;
    if h == 0 then Stride0Row0(l) else
    if h == 1 then Stride0Row1(l) else
    if h == 2 then Stride0Row2(l) else
    if h == 3 then Stride0Row3(l) else
    if h == 4 then Stride0Row4(l) else
    if h == 5 then Stride0Row5(l) else
    if h == 6 then Stride0Row6(l) else
    if h == 7 then Stride0Row7(l) else
    if h == 8 then Stride0Row8(l) else
    if h == 9 then Stride0Row9(l) else
    if h == 10 then Stride0RowA(l) else
    if h == 11 then Stride0RowB(l) else
    if h == 12 then Stride0RowC(l) else
    if h == 13 then Stride0RowD(l) else
    if h == 14 then Stride0RowE(l) else
    Stride0RowF(l)
  }

  function Stride1Row0(l: bv8): bv32 {
    if l == 0 then 0x00000000 else if l == 1 then 0x54075546 else if l == 2 then 0xa80eaa8c else if l == 3 then 0xfc09ffca else
    if l == 4 then 0x55f123e9 else if l == 5 then 0x01f676af else if l == 6 then 0xfdff8965 else if l == 7 then 0xa9f8dc23 else
    if l == 8 then 0xabe247d2 else if l == 9 then 0xffe51294 else if l == 10 then 0x03eced5e else if l == 11 then 0x57ebb818 else
    if l == 12 then 0xfe13643b else if l == 13 then 0xaa14317d else if l == 14 then 0x561dceb7 else 0x021a9bf1
  }

  function Stride1Row1(l: bv8): bv32 {
    if l == 0 then 0x5228f955 else if l == 1 then 0x062fac13 else if l == 2 then 0xfa2653d9 else if l == 3 then 0xae21069f else
    if l == 4 then 0x07d9dabc else if l == 5 then 0x53de8ffa else if l == 6 then 0xafd77030 else if l == 7 then 0xfbd02576 else
    if l == 8 then 0xf9cabe87 else if l == 9 then 0xadcdebc1 else if l == 10 then 0x51c4140b else if l == 11 then 0x05c3414d else
    if l == 12 then 0xac3b9d6e else if l == 13 then 0xf83cc828 else if l == 14 then 0x043537e2 else 0x503262a4
  }

  function Stride1Row2(l: bv8): bv32 {
    if l == 0 then 0xa451f2aa else if l == 1 then 0xf056a7ec else if l == 2 then 0x0c5f5826 else if l == 3 then 0x58580d60 else
    if l == 4 then 0xf1a0d143 else if l == 5 then 0xa5a78405 else if l == 6 then 0x59ae7bcf else if l == 7 then 0x0da92e89 else
    if l == 8 then 0x0fb3b578 else if l == 9 then 0x5bb4e03e else if l == 10 then 0xa7bd1ff4 else if l == 11 then 0xf3ba4ab2 else
    if l == 12 then 0x5a429691 else if l == 13 then 0x0e45c3d7 else if l == 14 then 0xf24c3c1d else 0xa64b695b
  }

  function Stride1Row3(l: bv8): bv32 {
    if l == 0 then 0xf6790bff else if l == 1 then 0xa27e5eb9 else if l == 2 then 0x5e77a173 else if l == 3 then 0x0a70f435 else
    if l == 4 then 0xa3882816 else if l == 5 then 0xf78f7d50 else if l == 6 then 0x0b86829a else if l == 7 then 0x5f81d7dc else
    if l == 8 then 0x5d9b4c2d else if l == 9 then 0x099c196b else if l == 10 then 0xf595e6a1 else if l == 11 then 0xa192b3e7 else
    if l == 12 then 0x086a6fc4 else if l == 13 then 0x5c6d3a82 else if l == 14 then 0xa064c548 else 0xf463900e
  }

  function Stride1Row4(l: bv8): bv32 {
    if l == 0 then 0x4d4f93a5 else if l == 1 then 0x1948c6e3 else if l == 2 then 0xe5413929 else if l == 3 then 0xb1466c6f else
    if l == 4 then 0x18beb04c else if l == 5 then 0x4cb9e50a else if l == 6 then 0xb0b01ac0 else if l == 7 then 0xe4b74f86 else
    if l == 8 then 0xe6add477 else if l == 9 then 0xb2aa8131 else if l == 10 then 0x4ea37efb else if l == 11 then 0x1aa42bbd else
    if l == 12 then 0xb35cf79e else if l == 13 then 0xe75ba2d8 else if l == 14 then 0x1b525d12 else 0x4f550854
  }

  function Stride1Row5(l: bv8): bv32 {
    if l == 0 then 0x1f676af0 else if l == 1 then 0x4b603fb6 else if l == 2 then 0xb769c07c else if l == 3 then 0xe36e953a else
    if l == 4 then 0x4a964919 else if l == 5 then 0x1e911c5f else if l == 6 then 0xe298e395 else if l == 7 then 0xb69fb6d3 else
    if l == 8 then 0xb4852d22 else if l == 9 then 0xe0827864 else if l == 10 then 0x1c8b87ae else if l == 11 then 0x488cd2e8 else
    if l == 12 then 0xe1740ecb else if l == 13 then 0xb5735b8d else if l == 14 then 0x497aa447 else 0x1d7df101
  }

  function Stride1Row6(l: bv8): bv32 {
    if l == 0 then 0xe91e610f else if l == 1 then 0xbd193449 else if l == 2 then 0x4110cb83 else if l == 3 then 0x15179ec5 else
    if l == 4 then 0xbcef42e6 else if l == 5 then 0xe8e817a0 else if l == 6 then 0x14e1e86a else if l == 7 then 0x40e6bd2c else
    if l == 8 then 0x42fc26dd else if l == 9 then 0x16fb739b else if l == 10 then 0xeaf28c51 else if l == 11 then 0xbef5d917 else
    if l == 12 then 0x170d0534 else if l == 13 then 0x430a5072 else if l == 14 then 0xbf03afb8 else 0xeb04fafe
  }

  function Stride1Row7(l: bv8): bv32 {
    if l == 0 then 0xbb36985a else if l == 1 then 0xef31cd1c else if l == 2 then 0x133832d6 else if l == 3 then 0x473f6790 else
    if l == 4 then 0xeec7bbb3 else if l == 5 then 0xbac0eef5 else if l == 6 then 0x46c9113f else if l == 7 then 0x12ce4479 else
    if l == 8 then 0x10d4df88 else if l == 9 then 0x44d38ace else if l == 10 then 0xb8da7504 else if l == 11 then 0xecdd2042 else
    if l == 12 then 0x4525fc61 else if l == 13 then 0x1122a927 else if l == 14 then 0xed2b56ed else 0xb92c03ab
  }

  function Stride1Row8(l: bv8): bv32 {
    if l == 0 then 0x9a9f274a else if l == 1 then 0xce98720c else if l == 2 then 0x32918dc6 else if l == 3 then 0x6696d880 else
    if l == 4 then 0xcf6e04a3 else if l == 5 then 0x9b6951e5 else if l == 6 then 0x6760ae2f else if l == 7 then 0x3367fb69 else
    if l == 8 then 0x317d6098 else if l == 9 then 0x657a35de else if l == 10 then 0x9973ca14 else if l == 11 then 0xcd749f52 else
    if l == 12 then 0x648c4371 else if l == 13 then 0x308b1637 else if l == 14 then 0xcc82e9fd else 0x9885bcbb
  }

  function Stride1Row9(l: bv8): bv32 {
    if l == 0 then 0xc8b7de1f else if l == 1 then 0x9cb08b59 else if l == 2 then 0x60b97493 else if l == 3 then 0x34be21d5 else
    if l == 4 then 0x9d46fdf6 else if l == 5 then 0xc941a8b0 else if l == 6 then 0x3548577a else if l == 7 then 0x614f023c else
    if l == 8 then 0x635599cd else if l == 9 then 0x3752cc8b else if l == 10 then 0xcb5b3341 else if l == 11 then 0x9f5c6607 else
    if l == 12 then 0x36a4ba24 else if l == 13 then 0x62a3ef62 else if l == 14 then 0x9eaa10a8 else 0xcaad45ee
  }

  function Stride1RowA(l: bv8): bv32 {
    if l == 0 then 0x3eced5e0 else if l == 1 then 0x6ac980a6 else if l == 2 then 0x96c07f6c else if l == 3 then 0xc2c72a2a else
    if l == 4 then 0x6b3ff609 else if l == 5 then 0x3f38a34f else if l == 6 then 0xc3315c85 else if l == 7 then 0x973609c3 else
    if l == 8 then 0x952c9232 else if l == 9 then 0xc12bc774 else if l == 10 then 0x3d2238be else if l == 11 then 0x69256df8 else
    if l == 12 then 0xc0ddb1db else if l == 13 then 0x94dae49d else if l == 14 then 0x68d31b57 else 0x3cd44e11
  }

  function Stride1RowB(l: bv8): bv32 {
    if l == 0 then 0x6ce62cb5 else if l == 1 then 0x38e179f3 else if l == 2 then 0xc4e88639 else if l == 3 then 0x90efd37f else
    if l == 4 then 0x39170f5c else if l == 5 then 0x6d105a1a else if l == 6 then 0x9119a5d0 else if l == 7 then 0xc51ef096 else
    if l == 8 then 0xc7046b67 else if l == 9 then 0x93033e21 else if l == 10 then 0x6f0ac1eb else if l == 11 then 0x3b0d94ad else
    if l == 12 then 0x92f5488e else if l == 13 then 0xc6f21dc8 else if l == 14 then 0x3afbe202 else 0x6efcb744
  }

  function Stride1RowC(l: bv8): bv32 {
    if l == 0 then 0xd7d0b4ef else if l == 1 then 0x83d7e1a9 else if l == 2 then 0x7fde1e63 else if l == 3 then 0x2bd94b25 else
    if l == 4 then 0x82219706 else if l == 5 then 0xd626c240 else if l == 6 then 0x2a2f3d8a else if l == 7 then 0x7e2868cc else
    if l == 8 then 0x7c32f33d else if l == 9 then 0x2835a67b else if l == 10 then 0xd43c59b1 else if l == 11 then 0x803b0cf7 else
    if l == 12 then 0x29c3d0d4 else if l == 13 then 0x7dc48592 else if l == 14 then 0x81cd7a58 else 0xd5ca2f1e
  }

  function Stride1RowD(l: bv8): bv32 {
    if l == 0 then 0x85f84dba else if l == 1 then 0xd1ff18fc else if l == 2 then 0x2df6e736 else if l == 3 then 0x79f1b270 else
    if l == 4 then 0xd0096e53 else if l == 5 then 0x840e3b15 else if l == 6 then 0x7807c4df else if l == 7 then 0x2c009199 else
    if l == 8 then 0x2e1a0a68 else if l == 9 then 0x7a1d5f2e else if l == 10 then 0x8614a0e4 else if l == 11 then 0xd213f5a2 else
    if l == 12 then 0x7beb2981 else if l == 13 then 0x2fec7cc7 else if l == 14 then 0xd3e5830d else 0x87e2d64b
  }

  function Stride1RowE(l: bv8): bv32 {
    if l == 0 then 0x73814645 else if l == 1 then 0x27861303 else if l == 2 then 0xdb8fecc9 else if l == 3 then 0x8f88b98f else
    if l == 4 then 0x267065ac else if l == 5 then 0x727730ea else if l == 6 then 0x8e7ecf20 else if l == 7 then 0xda799a66 else
    if l == 8 then 0xd8630197 else if l == 9 then 0x8c6454d1 else if l == 10 then 0x706dab1b else if l == 11 then 0x246afe5d else
    if l == 12 then 0x8d92227e else if l == 13 then 0xd9957738 else if l == 14 then 0x259c88f2 else 0x719bddb4
  }

  function Stride1RowF(l: bv8): bv32 {
    if l == 0 then 0x21a9bf10 else if l == 1 then 0x75aeea56 else if l == 2 then 0x89a7159c else if l == 3 then 0xdda040da else
    if l == 4 then 0x74589cf9 else if l == 5 then 0x205fc9bf else if l == 6 then 0xdc563675 else if l == 7 then 0x88516333 else
    if l == 8 then 0x8a4bf8c2 else if l == 9 then 0xde4cad84 else if l == 10 then 0x2245524e else if l == 11 then 0x76420708 else
    if l == 12 then 0xdfbadb2b else if l == 13 then 0x8bbd8e6d else if l == 14 then 0x77b471a7 else 0x23b324e1
  }

  function Stride1Table(c: bv8): bv32 {
    var l, h := c & 15, c >> 4;
    if h == 0 then Stride1Row0(l) else
    if h == 1 then Stride1Row1(l) else
    if h == 2 then Stride1Row2(l) else
    if h == 3 then Stride1Row3(l) else
    if h == 4 then Stride1Row4(l) else
    if h == 5 then Stride1Row5(l) else
    if h == 6 then Stride1Row6(l) else
    if h == 7 then Stride1Row7(l) else
    if h == 8 then Stride1Row8(l) else
    if h == 9 then Stride1Row9(l) else
    if h == 10 then Stride1RowA(l) else
    if h == 11 then Stride1RowB(l) else
    if h == 12 then Stride1RowC(l) else
    if h == 13 then Stride1RowD(l) else
    if h == 14 then Stride1RowE(l) else
    Stride1RowF(l)
  }

  function Stride2Row0(l: bv8): bv32 {
    if l == 0 then 0x00000000 else if l == 1 then 0x678efd01 else if l == 2 then 0xcf1dfa02 else if l == 3 then 0xa8930703 else
    if l == 4 then 0x9bd782f5 else if l == 5 then 0xfc597ff4 else if l == 6 then 0x54ca78f7 else if l == 7 then 0x334485f6 else
    if l == 8 then 0x3243731b else if l == 9 then 0x55cd8e1a else if l == 10 then 0xfd5e8919 else if l == 11 then 0x9ad07418 else
    if l == 12 then 0xa994f1ee else if l == 13 then 0xce1a0cef else if l == 14 then 0x66890bec else 0x0107f6ed
  }

  function Stride2Row1(l: bv8): bv32 {
    if l == 0 then 0x6486e636 else if l == 1 then 0x03081b37 else if l == 2 then 0xab9b1c34 else if l == 3 then 0xcc15e135 else
    if l == 4 then 0xff5164c3 else if l == 5 then 0x98df99c2 else if l == 6 then 0x304c9ec1 else if l == 7 then 0x57c263c0 else
    if l == 8 then 0x56c5952d else if l == 9 then 0x314b682c else if l == 10 then 0x99d86f2f else if l == 11 then 0xfe56922e else
    if l == 12 then 0xcd1217d8 else if l == 13 then 0xaa9cead9 else if l == 14 then 0x020fedda else 0x658110db
  }

  function Stride2Row2(l: bv8): bv32 {
    if l == 0 then 0xc90dcc6c else if l == 1 then 0xae83316d else if l == 2 then 0x0610366e else if l == 3 then 0x619ecb6f else
    if l == 4 then 0x52da4e99 else if l == 5 then 0x3554b398 else if l == 6 then 0x9dc7b49b else if l == 7 then 0xfa49499a else
    if l == 8 then 0xfb4ebf77 else if l == 9 then 0x9cc04276 else if l == 10 then 0x34534575 else if l == 11 then 0x53ddb874 else
    if l == 12 then 0x60993d82 else if l == 13 then 0x0717c083 else if l == 14 then 0xaf84c780 else 0xc80a3a81
  }

  function Stride2Row3(l: bv8): bv32 {
    if l == 0 then 0xad8b2a5a else if l == 1 then 0xca05d75b else if l == 2 then 0x6296d058 else if l == 3 then 0x05182d59 else
    if l == 4 then 0x365ca8af else if l == 5 then 0x51d255ae else if l == 6 then 0xf94152ad else if l == 7 then 0x9ecfafac else
    if l == 8 then 0x9fc85941 else if l == 9 then 0xf846a440 else if l == 10 then 0x50d5a343 else if l == 11 then 0x375b5e42 else
    if l == 12 then 0x041fdbb4 else if l == 13 then 0x639126b5 else if l == 14 then 0xcb0221b6 else 0xac8cdcb7
  }

  function Stride2Row4(l: bv8): bv32 {
    if l == 0 then 0x97f7ee29 else if l == 1 then 0xf0791328 else if l == 2 then 0x58ea142b else if l == 3 then 0x3f64e92a else
    if l == 4 then 0x0c206cdc else if l == 5 then 0x6bae91dd else if l == 6 then 0xc33d96de else if l == 7 then 0xa4b36bdf else
    if l == 8 then 0xa5b49d32 else if l == 9 then 0xc23a6033 else if l == 10 then 0x6aa96730 else if l == 11 then 0x0d279a31 else
    if l == 12 then 0x3e631fc7 else if l == 13 then 0x59ede2c6 else if l == 14 then 0xf17ee5c5 else 0x96f018c4
  }

  function Stride2Row5(l: bv8): bv32 {
    if l == 0 then 0xf371081f else if l == 1 then 0x94fff51e else if l == 2 then 0x3c6cf21d else if l == 3 then 0x5be20f1c else
    if l == 4 then 0x68a68aea else if l == 5 then 0x0f2877eb else if l == 6 then 0xa7bb70e8 else if l == 7 then 0xc0358de9 else
    if l == 8 then 0xc1327b04 else if l == 9 then 0xa6bc8605 else if l == 10 then 0x0e2f8106 else if l == 11 then 0x69a17c07 else
    if l == 12 then 0x5ae5f9f1 else if l == 13 then 0x3d6b04f0 else if l == 14 then 0x95f803f3 else 0xf276fef2
  }

  function Stride2Row6(l: bv8): bv32 {
    if l == 0 then 0x5efa2245 else if l == 1 then 0x3974df44 else if l == 2 then 0x91e7d847 else if l == 3 then 0xf6692546 else
    if l == 4 then 0xc52da0b0 else if l == 5 then 0xa2a35db1 else if l == 6 then 0x0a305ab2 else if l == 7 then 0x6dbea7b3 else
    if l == 8 then 0x6cb9515e else if l == 9 then 0x0b37ac5f else if l == 10 then 0xa3a4ab5c else if l == 11 then 0xc42a565d else
    if l == 12 then 0xf76ed3ab else if l == 13 then 0x90e02eaa else if l == 14 then 0x387329a9 else 0x5ffdd4a8
  }

  function Stride2Row7(l: bv8): bv32 {
    if l == 0 then 0x3a7cc473 else if l == 1 then 0x5df23972 else if l == 2 then 0xf5613e71 else if l == 3 then 0x92efc370 else
    if l == 4 then 0xa1ab4686 else if l == 5 then 0xc625bb87 else if l == 6 then 0x6eb6bc84 else if l == 7 then 0x09384185 else
    if l == 8 then 0x083fb768 else if l == 9 then 0x6fb14a69 else if l == 10 then 0xc7224d6a else if l == 11 then 0xa0acb06b else
    if l == 12 then 0x93e8359d else if l == 13 then 0xf466c89c else if l == 14 then 0x5cf5cf9f else 0x3b7b329e
  }

  function Stride2Row8(l: bv8): bv32 {
    if l == 0 then 0x2a03aaa3 else if l == 1 then 0x4d8d57a2 else if l == 2 then 0xe51e50a1 else if l == 3 then 0x8290ada0 else
    if l == 4 then 0xb1d42856 else if l == 5 then 0xd65ad557 else if l == 6 then 0x7ec9d254 else if l == 7 then 0x19472f55 else
    if l == 8 then 0x1840d9b8 else if l == 9 then 0x7fce24b9 else if l == 10 then 0xd75d23ba else if l == 11 then 0xb0d3debb else
    if l == 12 then 0x83975b4d else if l == 13 then 0xe419a64c else if l == 14 then 0x4c8aa14f else 0x2b045c4e
  }

  function Stride2Row9(l: bv8): bv32 {
    if l == 0 then 0x4e854c95 else if l == 1 then 0x290bb194 else if l == 2 then 0x8198b697 else if l == 3 then 0xe6164b96 else
    if l == 4 then 0xd552ce60 else if l == 5 then 0xb2dc3361 else if l == 6 then 0x1a4f3462 else if l == 7 then 0x7dc1c963 else
    if l == 8 then 0x7cc63f8e else if l == 9 then 0x1b48c28f else if l == 10 then 0xb3dbc58c else if l == 11 then 0xd455388d else
    if l == 12 then 0xe711bd7b else if l == 13 then 0x809f407a else if l == 14 then 0x280c4779 else 0x4f82ba78
  }

  function Stride2RowA(l: bv8): bv32 {
    if l == 0 then 0xe30e66cf else if l == 1 then 0x84809bce else if l == 2 then 0x2c139ccd else if l == 3 then 0x4b9d61cc else
    if l == 4 then 0x78d9e43a else if l == 5 then 0x1f57193b else if l == 6 then 0xb7c41e38 else if l == 7 then 0xd04ae339 else
    if l == 8 then 0xd14d15d4 else if l == 9 then 0xb6c3e8d5 else if l == 10 then 0x1e50efd6 else if l == 11 then 0x79de12d7 else
    if l == 12 then 0x4a9a9721 else if l == 13 then 0x2d146a20 else if l == 14 then 0x85876d23 else 0xe2099022
  }

  function Stride2RowB(l: bv8): bv32 {
    if l == 0 then 0x878880f9 else if l == 1 then 0xe0067df8 else if l == 2 then 0x48957afb else if l == 3 then 0x2f1b87fa else
    if l == 4 then 0x1c5f020c else if l == 5 then 0x7bd1ff0d else if l == 6 then 0xd342f80e else if l == 7 then 0xb4cc050f else
    if l == 8 then 0xb5cbf3e2 else if l == 9 then 0xd2450ee3 else if l == 10 then 0x7ad609e0 else if l == 11 then 0x1d58f4e1 else
    if l == 12 then 0x2e1c7117 else if l == 13 then 0x49928c16 else if l == 14 then 0xe1018b15 else 0x868f7614
  }

  function Stride2RowC(l: bv8): bv32 {
    if l == 0 then 0xbdf4448a else if l == 1 then 0xda7ab98b else if l == 2 then 0x72e9be88 else if l == 3 then 0x15674389 else
    if l == 4 then 0x2623c67f else if l == 5 then 0x41ad3b7e else if l == 6 then 0xe93e3c7d else if l == 7 then 0x8eb0c17c else
    if l == 8 then 0x8fb73791 else if l == 9 then 0xe839ca90 else if l == 10 then 0x40aacd93 else if l == 11 then 0x27243092 else
    if l == 12 then 0x1460b564 else if l == 13 then 0x73ee4865 else if l == 14 then 0xdb7d4f66 else 0xbcf3b267
  }

  function Stride2RowD(l: bv8): bv32 {
    if l == 0 then 0xd972a2bc else if l == 1 then 0xbefc5fbd else if l == 2 then 0x166f58be else if l == 3 then 0x71e1a5bf else
    if l == 4 then 0x42a52049 else if l == 5 then 0x252bdd48 else if l == 6 then 0x8db8da4b else if l == 7 then 0xea36274a else
    if l == 8 then 0xeb31d1a7 else if l == 9 then 0x8cbf2ca6 else if l == 10 then 0x242c2ba5 else if l == 11 then 0x43a2d6a4 else
    if l == 12 then 0x70e65352 else if l == 13 then 0x1768ae53 else if l == 14 then 0xbffba950 else 0xd8755451
  }

  function Stride2RowE(l: bv8): bv32 {
    if l == 0 then 0x74f988e6 else if l == 1 then 0x137775e7 else if l == 2 then 0xbbe472e4 else if l == 3 then 0xdc6a8fe5 else
    if l == 4 then 0xef2e0a13 else if l == 5 then 0x88a0f712 else if l == 6 then 0x2033f011 else if l == 7 then 0x47bd0d10 else
    if l == 8 then 0x46bafbfd else if l == 9 then 0x213406fc else if l == 10 then 0x89a701ff else if l == 11 then 0xee29fcfe else
    if l == 12 then 0xdd6d7908 else if l == 13 then 0xbae38409 else if l == 14 then 0x1270830a else 0x75fe7e0b
  }

  function Stride2RowF(l: bv8): bv32 {
    if l == 0 then 0x107f6ed0 else if l == 1 then 0x77f193d1 else if l == 2 then 0xdf6294d2 else if l == 3 then 0xb8ec69d3 else
    if l == 4 then 0x8ba8ec25 else if l == 5 then 0xec261124 else if l == 6 then 0x44b51627 else if l == 7 then 0x233beb26 else
    if l == 8 then 0x223c1dcb else if l == 9 then 0x45b2e0ca else if l == 10 then 0xed21e7c9 else if l == 11 then 0x8aaf1ac8 else
    if l == 12 then 0xb9eb9f3e else if l == 13 then 0xde65623f else if l == 14 then 0x76f6653c else 0x1178983d
  }

  function Stride2Table(c: bv8): bv32 {
    var l, h := c & 15, c >> 4;
    if h == 0 then Stride2Row0(l) else
    if h == 1 then Stride2Row1(l) else
    if h == 2 then Stride2Row2(l) else
    if h == 3 then Stride2Row3(l) else
    if h == 4 then Stride2Row4(l) else
    if h == 5 then Stride2Row5(l) else
    if h == 6 then Stride2Row6(l) else
    if h == 7 then Stride2Row7(l) else
    if h == 8 then Stride2Row8(l) else
    if h == 9 then Stride2Row9(l) else
    if h == 10 then Stride2RowA(l) else
    if h == 11 then Stride2RowB(l) else
    if h == 12 then Stride2RowC(l) else
    if h == 13 then Stride2RowD(l) else
    if h == 14 then Stride2RowE(l) else
    Stride2RowF(l)
  }

  function Stride3Row0(l: bv8): bv32 {
    if l == 0 then 0x00000000 else if l == 1 then 0xf20c0dfe else if l == 2 then 0xe1f46d0d else if l == 3 then 0x13f860f3 else
    if l == 4 then 0xc604aceb else if l == 5 then 0x3408a115 else if l == 6 then 0x27f0c1e6 else if l == 7 then 0xd5fccc18 else
    if l == 8 then 0x89e52f27 else if l == 9 then 0x7be922d9 else if l == 10 then 0x6811422a else if l == 11 then 0x9a1d4fd4 else
    if l == 12 then 0x4fe183cc else if l == 13 then 0xbded8e32 else if l == 14 then 0xae15eec1 else 0x5c19e33f
  }

  function Stride3Row1(l: bv8): bv32 {
    if l == 0 then 0x162628bf else if l == 1 then 0xe42a2541 else if l == 2 then 0xf7d245b2 else if l == 3 then 0x05de484c else
    if l == 4 then 0xd0228454 else if l == 5 then 0x222e89aa else if l == 6 then 0x31d6e959 else if l == 7 then 0xc3dae4a7 else
    if l == 8 then 0x9fc30798 else if l == 9 then 0x6dcf0a66 else if l == 10 then 0x7e376a95 else if l == 11 then 0x8c3b676b else
    if l == 12 then 0x59c7ab73 else if l == 13 then 0xabcba68d else if l == 14 then 0xb833c67e else 0x4a3fcb80
  }

  function Stride3Row2(l: bv8): bv32 {
    if l == 0 then 0x2c4c517e else if l == 1 then 0xde405c80 else if l == 2 then 0xcdb83c73 else if l == 3 then 0x3fb4318d else
    if l == 4 then 0xea48fd95 else if l == 5 then 0x1844f06b else if l == 6 then 0x0bbc9098 else if l == 7 then 0xf9b09d66 else
    if l == 8 then 0xa5a97e59 else if l == 9 then 0x57a573a7 else if l == 10 then 0x445d1354 else if l == 11 then 0xb6511eaa else
    if l == 12 then 0x63add2b2 else if l == 13 then 0x91a1df4c else if l == 14 then 0x8259bfbf else 0x7055b241
  }

  function Stride3Row3(l: bv8): bv32 {
    if l == 0 then 0x3a6a79c1 else if l == 1 then 0xc866743f else if l == 2 then 0xdb9e14cc else if l == 3 then 0x29921932 else
    if l == 4 then 0xfc6ed52a else if l == 5 then 0x0e62d8d4 else if l == 6 then 0x1d9ab827 else if l == 7 then 0xef96b5d9 else
    if l == 8 then 0xb38f56e6 else if l == 9 then 0x41835b18 else if l == 10 then 0x527b3beb else if l == 11 then 0xa0773615 else
    if l == 12 then 0x758bfa0d else if l == 13 then 0x8787f7f3 else if l == 14 then 0x947f9700 else 0x66739afe
  }

  function Stride3Row4(l: bv8): bv32 {
    if l == 0 then 0x5898a2fc else if l == 1 then 0xaa94af02 else if l == 2 then 0xb96ccff1 else if l == 3 then 0x4b60c20f else
    if l == 4 then 0x9e9c0e17 else if l == 5 then 0x6c9003e9 else if l == 6 then 0x7f68631a else if l == 7 then 0x8d646ee4 else
    if l == 8 then 0xd17d8ddb else if l == 9 then 0x23718025 else if l == 10 then 0x3089e0d6 else if l == 11 then 0xc285ed28 else
    if l == 12 then 0x17792130 else if l == 13 then 0xe5752cce else if l == 14 then 0xf68d4c3d else 0x048141c3
  }

  function Stride3Row5(l: bv8): bv32 {
    if l == 0 then 0x4ebe8a43 else if l == 1 then 0xbcb287bd else if l == 2 then 0xaf4ae74e else if l == 3 then 0x5d46eab0 else
    if l == 4 then 0x88ba26a8 else if l == 5 then 0x7ab62b56 else if l == 6 then 0x694e4ba5 else if l == 7 then 0x9b42465b else
    if l == 8 then 0xc75ba564 else if l == 9 then 0x3557a89a else if l == 10 then 0x26afc869 else if l == 11 then 0xd4a3c597 else
    if l == 12 then 0x015f098f else if l == 13 then 0xf3530471 else if l == 14 then 0xe0ab6482 else 0x12a7697c
  }

  function Stride3Row6(l: bv8): bv32 {
    if l == 0 then 0x74d4f382 else if l == 1 then 0x86d8fe7c else if l == 2 then 0x95209e8f else if l == 3 then 0x672c9371 else
    if l == 4 then 0xb2d05f69 else if l == 5 then 0x40dc5297 else if l == 6 then 0x53243264 else if l == 7 then 0xa1283f9a else
    if l == 8 then 0xfd31dca5 else if l == 9 then 0x0f3dd15b else if l == 10 then 0x1cc5b1a8 else if l == 11 then 0xeec9bc56 else
    if l == 12 then 0x3b35704e else if l == 13 then 0xc9397db0 else if l == 14 then 0xdac11d43 else 0x28cd10bd
  }

  function Stride3Row7(l: bv8): bv32 {
    if l == 0 then 0x62f2db3d else if l == 1 then 0x90fed6c3 else if l == 2 then 0x8306b630 else if l == 3 then 0x710abbce else
    if l == 4 then 0xa4f677d6 else if l == 5 then 0x56fa7a28 else if l == 6 then 0x45021adb else if l == 7 then 0xb70e1725 else
    if l == 8 then 0xeb17f41a else if l == 9 then 0x191bf9e4 else if l == 10 then 0x0ae39917 else if l == 11 then 0xf8ef94e9 else
    if l == 12 then 0x2d1358f1 else if l == 13 then 0xdf1f550f else if l == 14 then 0xcce735fc else 0x3eeb3802
  }

  function Stride3Row8(l: bv8): bv32 {
    if l == 0 then 0xb13145f8 else if l == 1 then 0x433d4806 else if l == 2 then 0x50c528f5 else if l == 3 then 0xa2c9250b else
    if l == 4 then 0x7735e913 else if l == 5 then 0x8539e4ed else if l == 6 then 0x96c1841e else if l == 7 then 0x64cd89e0 else
    if l == 8 then 0x38d46adf else if l == 9 then 0xcad86721 else if l == 10 then 0xd92007d2 else if l == 11 then 0x2b2c0a2c else
    if l == 12 then 0xfed0c634 else if l == 13 then 0x0cdccbca else if l == 14 then 0x1f24ab39 else 0xed28a6c7
  }

  function Stride3Row9(l: bv8): bv32 {
    if l == 0 then 0xa7176d47 else if l == 1 then 0x551b60b9 else if l == 2 then 0x46e3004a else if l == 3 then 0xb4ef0db4 else
    if l == 4 then 0x6113c1ac else if l == 5 then 0x931fcc52 else if l == 6 then 0x80e7aca1 else if l == 7 then 0x72eba15f else
    if l == 8 then 0x2ef24260 else if l == 9 then 0xdcfe4f9e else if l == 10 then 0xcf062f6d else if l == 11 then 0x3d0a2293 else
    if l == 12 then 0xe8f6ee8b else if l == 13 then 0x1afae375 else if l == 14 then 0x09028386 else 0xfb0e8e78
  }

  function Stride3RowA(l: bv8): bv32 {
    if l == 0 then 0x9d7d1486 else if l == 1 then 0x6f711978 else if l == 2 then 0x7c89798b else if l == 3 then 0x8e857475 else
    if l == 4 then 0x5b79b86d else if l == 5 then 0xa975b593 else if l == 6 then 0xba8dd560 else if l == 7 then 0x4881d89e else
    if l == 8 then 0x14983ba1 else if l == 9 then 0xe694365f else if l == 10 then 0xf56c56ac else if l == 11 then 0x07605b52 else
    if l == 12 then 0xd29c974a else if l == 13 then 0x20909ab4 else if l == 14 then 0x3368fa47 else 0xc164f7b9
  }

  function Stride3RowB(l: bv8): bv32 {
    if l == 0 then 0x8b5b3c39 else if l == 1 then 0x795731c7 else if l == 2 then 0x6aaf5134 else if l == 3 then 0x98a35cca else
    if l == 4 then 0x4d5f90d2 else if l == 5 then 0xbf539d2c else if l == 6 then 0xacabfddf else if l == 7 then 0x5ea7f021 else
    if l == 8 then 0x02be131e else if l == 9 then 0xf0b21ee0 else if l == 10 then 0xe34a7e13 else if l == 11 then 0x114673ed else
    if l == 12 then 0xc4babff5 else if l == 13 then 0x36b6b20b else if l == 14 then 0x254ed2f8 else 0xd742df06
  }

  function Stride3RowC(l: bv8): bv32 {
    if l == 0 then 0xe9a9e704 else if l == 1 then 0x1ba5eafa else if l == 2 then 0x085d8a09 else if l == 3 then 0xfa5187f7 else
    if l == 4 then 0x2fad4bef else if l == 5 then 0xdda14611 else if l == 6 then 0xce5926e2 else if l == 7 then 0x3c552b1c else
    if l == 8 then 0x604cc823 else if l == 9 then 0x9240c5dd else if l == 10 then 0x81b8a52e else if l == 11 then 0x73b4a8d0 else
    if l == 12 then 0xa64864c8 else if l == 13 then 0x54446936 else if l == 14 then 0x47bc09c5 else 0xb5b0043b
  }

  function Stride3RowD(l: bv8): bv32 {
    if l == 0 then 0xff8fcfbb else if l == 1 then 0x0d83c245 else if l == 2 then 0x1e7ba2b6 else if l == 3 then 0xec77af48 else
    if l == 4 then 0x398b6350 else if l == 5 then 0xcb876eae else if l == 6 then 0xd87f0e5d else if l == 7 then 0x2a7303a3 else
    if l == 8 then 0x766ae09c else if l == 9 then 0x8466ed62 else if l == 10 then 0x979e8d91 else if l == 11 then 0x6592806f else
    if l == 12 then 0xb06e4c77 else if l == 13 then 0x42624189 else if l == 14 then 0x519a217a else 0xa3962c84
  }

  function Stride3RowE(l: bv8): bv32 {
    if l == 0 then 0xc5e5b67a else if l == 1 then 0x37e9bb84 else if l == 2 then 0x2411db77 else if l == 3 then 0xd61dd689 else
    if l == 4 then 0x03e11a91 else if l == 5 then 0xf1ed176f else if l == 6 then 0xe215779c else if l == 7 then 0x10197a62 else
    if l == 8 then 0x4c00995d else if l == 9 then 0xbe0c94a3 else if l == 10 then 0xadf4f450 else if l == 11 then 0x5ff8f9ae else
    if l == 12 then 0x8a0435b6 else if l == 13 then 0x78083848 else if l == 14 then 0x6bf058bb else 0x99fc5545
  }

  function Stride3RowF(l: bv8): bv32 {
    if l == 0 then 0xd3c39ec5 else if l == 1 then 0x21cf933b else if l == 2 then 0x3237f3c8 else if l == 3 then 0xc03bfe36 else
    if l == 4 then 0x15c7322e else if l == 5 then 0xe7cb3fd0 else if l == 6 then 0xf4335f23 else if l == 7 then 0x063f52dd else
    if l == 8 then 0x5a26b1e2 else if l == 9 then 0xa82abc1c else if l == 10 then 0xbbd2dcef else if l == 11 then 0x49ded111 else
    if l == 12 then 0x9c221d09 else if l == 13 then 0x6e2e10f7 else if l == 14 then 0x7dd67004 else 0x8fda7dfa
  }

  function Stride3Table(c: bv8): bv32 {
    var l, h := c & 15, c >> 4;
    if h == 0 then Stride3Row0(l) else
    if h == 1 then Stride3Row1(l) else
    if h == 2 then Stride3Row2(l) else
    if h == 3 then Stride3Row3(l) else
    if h == 4 then Stride3Row4(l) else
    if h == 5 then Stride3Row5(l) else
    if h == 6 then Stride3Row6(l) else
    if h == 7 then Stride3Row7(l) else
    if h == 8 then Stride3Row8(l) else
    if h == 9 then Stride3Row9(l) else
    if h == 10 then Stride3RowA(l) else
    if h == 11 then Stride3RowB(l) else
    if h == 12 then Stride3RowC(l) else
    if h == 13 then Stride3RowD(l) else
    if h == 14 then Stride3RowE(l) else
    Stride3RowF(l)
  }

  /** `b` when the bit `m` of `c` is set. */
  function Pick(c: bv32, m: bv32, b: bv32): bv32 {
    if c & m == 0 then 0 else b
  }

  function Xor(a: bv32, b: bv32): bv32 {
    a ^ b
  }

  function Sum(a: bv32, b: bv32, c: bv32, d: bv32): bv32 {
    a ^ (b ^ (c ^ d))
  }

  /** The exclusive or of the words chosen by four bits. */
  function Four(c: bv32, m0: bv32, m1: bv32, m2: bv32, m3: bv32, b0: bv32, b1: bv32, b2: bv32, b3: bv32): bv32 {
    Sum(Pick(c, m0, b0), Pick(c, m1, b1), Pick(c, m2, b2), Pick(c, m3, b3))
  }

  /** The exclusive or of the words chosen by the bits of a byte. */
  function Mix(c: bv32, b0: bv32, b1: bv32, b2: bv32, b3: bv32, b4: bv32, b5: bv32, b6: bv32, b7: bv32): bv32 {
    Xor(Four(c, 1, 2, 4, 8, b0, b1, b2, b3), Four(c, 16, 32, 64, 128, b4, b5, b6, b7))
  }

  // Every entry is the exclusive or of the entries of its bits; half a table at a time.

  lemma ByteLowHalf(c: bv8)
    requires c < 128
    ensures ByteTable(c) == Mix(c as bv32, 0xf26b8303, 0xe13b70f7, 0xc79a971f, 0x8ad958cf, 0x105ec76f, 0x20bd8ede, 0x417b1dbc, 0x82f63b78)
  {
  }

  lemma ByteHighHalf(c: bv8)
    requires c >= 128
    ensures ByteTable(c) == Mix(c as bv32, 0xf26b8303, 0xe13b70f7, 0xc79a971f, 0x8ad958cf, 0x105ec76f, 0x20bd8ede, 0x417b1dbc, 0x82f63b78)
  {
  }

  lemma ByteMixes(c: bv8)
    ensures ByteTable(c) == Mix(c as bv32, 0xf26b8303, 0xe13b70f7, 0xc79a971f, 0x8ad958cf, 0x105ec76f, 0x20bd8ede, 0x417b1dbc, 0x82f63b78)
  {
    if c < 128 { ByteLowHalf(c); } else { ByteHighHalf(c); }
  }

  lemma Stride0LowHalf(c: bv8)
    requires c < 128
    ensures Stride0Table(c) == Mix(c as bv32, 0x30d23865, 0x61a470ca, 0xc348e194, 0x837db5d9, 0x03171d43, 0x062e3a86, 0x0c5c750c, 0x18b8ea18)
  {
  }

  lemma Stride0HighHalf(c: bv8)
    requires c >= 128
    ensures Stride0Table(c) == Mix(c as bv32, 0x30d23865, 0x61a470ca, 0xc348e194, 0x837db5d9, 0x03171d43, 0x062e3a86, 0x0c5c750c, 0x18b8ea18)
  {
  }

  lemma Stride0Mixes(c: bv8)
    ensures Stride0Table(c) == Mix(c as bv32, 0x30d23865, 0x61a470ca, 0xc348e194, 0x837db5d9, 0x03171d43, 0x062e3a86, 0x0c5c750c, 0x18b8ea18)
  {
    if c < 128 { Stride0LowHalf(c); } else { Stride0HighHalf(c); }
  }

  lemma Stride1LowHalf(c: bv8)
    requires c < 128
    ensures Stride1Table(c) == Mix(c as bv32, 0x54075546, 0xa80eaa8c, 0x55f123e9, 0xabe247d2, 0x5228f955, 0xa451f2aa, 0x4d4f93a5, 0x9a9f274a)
  {
  }

  lemma Stride1HighHalf(c: bv8)
    requires c >= 128
    ensures Stride1Table(c) == Mix(c as bv32, 0x54075546, 0xa80eaa8c, 0x55f123e9, 0xabe247d2, 0x5228f955, 0xa451f2aa, 0x4d4f93a5, 0x9a9f274a)
  {
  }

  lemma Stride1Mixes(c: bv8)
    ensures Stride1Table(c) == Mix(c as bv32, 0x54075546, 0xa80eaa8c, 0x55f123e9, 0xabe247d2, 0x5228f955, 0xa451f2aa, 0x4d4f93a5, 0x9a9f274a)
  {
    if c < 128 { Stride1LowHalf(c); } else { Stride1HighHalf(c); }
  }

  lemma Stride2LowHalf(c: bv8)
    requires c < 128
    ensures Stride2Table(c) == Mix(c as bv32, 0x678efd01, 0xcf1dfa02, 0x9bd782f5, 0x3243731b, 0x6486e636, 0xc90dcc6c, 0x97f7ee29, 0x2a03aaa3)
  {
  }

  lemma Stride2HighHalf(c: bv8)
    requires c >= 128
    ensures Stride2Table(c) == Mix(c as bv32, 0x678efd01, 0xcf1dfa02, 0x9bd782f5, 0x3243731b, 0x6486e636, 0xc90dcc6c, 0x97f7ee29, 0x2a03aaa3)
  {
  }

  lemma Stride2Mixes(c: bv8)
    ensures Stride2Table(c) == Mix(c as bv32, 0x678efd01, 0xcf1dfa02, 0x9bd782f5, 0x3243731b, 0x6486e636, 0xc90dcc6c, 0x97f7ee29, 0x2a03aaa3)
  {
    if c < 128 { Stride2LowHalf(c); } else { Stride2HighHalf(c); }
  }

  lemma Stride3LowHalf(c: bv8)
    requires c < 128
    ensures Stride3Table(c) == Mix(c as bv32, 0xf20c0dfe, 0xe1f46d0d, 0xc604aceb, 0x89e52f27, 0x162628bf, 0x2c4c517e, 0x5898a2fc, 0xb13145f8)
  {
  }

  lemma Stride3HighHalf(c: bv8)
    requires c >= 128
    ensures Stride3Table(c) == Mix(c as bv32, 0xf20c0dfe, 0xe1f46d0d, 0xc604aceb, 0x89e52f27, 0x162628bf, 0x2c4c517e, 0x5898a2fc, 0xb13145f8)
  {
  }

  lemma Stride3Mixes(c: bv8)
    ensures Stride3Table(c) == Mix(c as bv32, 0xf20c0dfe, 0xe1f46d0d, 0xc604aceb, 0x89e52f27, 0x162628bf, 0x2c4c517e, 0x5898a2fc, 0xb13145f8)
  {
    if c < 128 { Stride3LowHalf(c); } else { Stride3HighHalf(c); }
  }
}
